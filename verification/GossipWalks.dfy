/** Random walks in a network of nodes: forwarded joins and shuffles. Each walk
    message carries the name of its walk, which a forward inherits. */
module GossipWalks {
  import opened GossipTypes
  import opened GossipTopic

  predicate IsWalk(m: Message) { m.ForwardJoin? || m.Shuffle? }

  predicate SameKind(a: Message, b: Message) {
    (a.ForwardJoin? && b.ForwardJoin?) || (a.Shuffle? && b.Shuffle?)
  }

  /** A message in flight; `walk` is its walk when it is a walk message. */
  datatype Packet = Packet(from: Id, to: Id, message: Message, walk: nat)

  /** A walk's ttl when it set out, and how often it was forwarded since. */
  datatype Walk = Walk(born: nat, forwards: nat)

  datatype Network = Network(nodes: map<Id, Topic>, flight: seq<Packet>, walks: seq<Walk>)

  datatype Action =
    | Deliver(index: nat, now: int, draws: nat)
    | Lose(index: nat)
    | Local(node: Id, event: Event, now: int, draws: nat)

  // -------------------------------------------------------------- one message

  ghost predicate NoWalk(out: seq<Out>) {
    forall o :: o in out && o.Send? ==> !IsWalk(o.message)
  }

  /** What a node does with a walk message: it forwards it at most once, the
      same but for a lower ttl, and not at all once the ttl is 0. */
  ghost predicate Forwards(message: Message, out: seq<Out>) {
    NoWalk(out) ||
    exists pre, to, post :: ForwardsOnce(message, out, pre, to, post)
  }

  ghost predicate ForwardsOnce(message: Message, out: seq<Out>, pre: seq<Out>, to: Id, post: seq<Out>) {
    && IsWalk(message) && message.ttl > 0 && NoWalk(pre) && NoWalk(post)
    && out == pre + [Send(to, message.(ttl := message.ttl - 1))] + post
  }

  lemma ForwardJoinForwards(c: Config, t: Topic, sender: Id, info: PeerInfo, ttl: nat)
    ensures Forwards(ForwardJoin(info, ttl), HandleForwardJoin(c, t, sender, info, ttl).out)
  {
    hide PickActiveExcept, InsertPassive;
    var out := HandleForwardJoin(c, t, sender, info, ttl).out;
    if !(info.id in t.neighbors || ttl == 0 || |t.neighbors| <= 1) {
      var s := if ttl == PASSIVE_WALK then AddPassive(c, t, info.id, info.data) else Step(t, []);
      assert NoWalk(s.out);
      var next := PickActiveExcept(c, s.t, {sender});
      if info.id !in s.t.pending && next.peer.Some? {
        var message := ForwardJoin(info, ttl);
        assert out == s.out + [Send(next.peer.value, ForwardJoin(info, ttl - 1))] + [];
        assert ForwardsOnce(message, out, s.out, next.peer.value, []);
      }
    }
  }

  lemma {:induction false} AllPassiveNoWalk(c: Config, t: Topic, nodes: seq<PeerInfo>)
    ensures NoWalk(AddAllPassive(c, t, nodes).out)
    decreases |nodes|
  {
    hide InsertPassive;
    if nodes != [] {
      AllPassiveNoWalk(c, AddPassive(c, t, nodes[0].id, nodes[0].data).t, nodes[1..]);
    }
  }

  lemma ShuffleForwards(c: Config, t: Topic, sender: Id, origin: Id, nodes: seq<PeerInfo>, ttl: nat)
    ensures Forwards(Shuffle(origin, nodes, ttl), HandleShuffle(c, t, sender, origin, nodes, ttl).out)
  {
    hide PickActiveExcept, AddAllPassive, Sample, InfosOf;
    var out := HandleShuffle(c, t, sender, origin, nodes, ttl).out;
    if ttl == 0 || |t.neighbors| <= 1 {
      AllPassiveNoWalk(c, t, nodes);
    } else {
      var next := PickActiveExcept(c, t, {origin, sender});
      if next.peer.Some? {
        var message := Shuffle(origin, nodes, ttl);
        assert out == [] + [Send(next.peer.value, Shuffle(origin, nodes, ttl - 1))] + [];
        assert ForwardsOnce(message, out, [], next.peer.value, []);
      }
    }
  }

  lemma ForwardsMore(message: Message, out: seq<Out>, more: seq<Out>)
    requires Forwards(message, out) && NoWalk(more)
    ensures Forwards(message, out + more)
  {
    if !NoWalk(out) {
      var pre, to, post :| ForwardsOnce(message, out, pre, to, post);
      assert out + more == pre + [Send(to, message.(ttl := message.ttl - 1))] + (post + more);
      assert ForwardsOnce(message, out + more, pre, to, post + more);
    }
  }

  lemma HandleForwards(c: Config, t: Topic, from: Id, message: Message, now: int)
    requires IsWalk(message)
    ensures Forwards(message, Handle(c, t, Recv(from, message), now).out)
  {
    hide Forwards, HandleForwardJoin, HandleShuffle;
    var u := Expire(t, now);
    match message {
      case ForwardJoin(info, ttl) => ForwardJoinForwards(c, u, from, info, ttl);
      case Shuffle(origin, nodes, ttl) => ShuffleForwards(c, u, from, origin, nodes, ttl);
    }
    var s := Dispatch(c, u, Recv(from, message), now);
    ForwardsMore(message, s.out, [ScheduleShuffle()]);
  }

  // -------------------------------------------------------------- the network

  /** The messages of a node's outputs take off. A walk message forwards the
      walk of the message that caused it, if that is of its kind, or starts one. */
  ghost function Post(n: Network, from: Id, out: seq<Out>, cause: seq<Packet>): Network
    decreases |out|
  {
    if out == [] then n
    else Post(if out[0].Send? then PostOne(n, from, out[0].peer, out[0].message, cause) else n, from, out[1..], cause)
  }

  ghost function PostOne(n: Network, from: Id, to: Id, message: Message, cause: seq<Packet>): Network {
    if !IsWalk(message) then n.(flight := n.flight + [Packet(from, to, message, 0)])
    else if |cause| == 1 && SameKind(cause[0].message, message) && cause[0].walk < |n.walks| then
      var walk := n.walks[cause[0].walk];
      n.(flight := n.flight + [Packet(from, to, message, cause[0].walk)],
         walks := n.walks[cause[0].walk := walk.(forwards := walk.forwards + 1)])
    else
      n.(flight := n.flight + [Packet(from, to, message, |n.walks|)], walks := n.walks + [Walk(message.ttl, 0)])
  }

  ghost function Removed(flight: seq<Packet>, index: nat): seq<Packet>
    requires index < |flight|
  {
    flight[..index] + flight[index + 1..]
  }

  /** One action: a message arrives or is lost, or a node handles an event of its own. */
  ghost function Act(configs: Id -> Config, n: Network, a: Action): Network {
    match a
    case Lose(index) => if index < |n.flight| then n.(flight := Removed(n.flight, index)) else n
    case Deliver(index, now, draws) =>
      if index < |n.flight| && n.flight[index].to in n.nodes then
        var p := n.flight[index];
        var s := Handle(configs(p.to), n.nodes[p.to].(draws := draws), Recv(p.from, p.message), now);
        Post(n.(flight := Removed(n.flight, index), nodes := n.nodes[p.to := s.t]), p.to, s.out,
             if IsWalk(p.message) then [p] else [])
      else n
    case Local(node, event, now, draws) =>
      if node in n.nodes && !event.Recv? then
        var s := Handle(configs(node), n.nodes[node].(draws := draws), event, now);
        Post(n.(nodes := n.nodes[node := s.t]), node, s.out, [])
      else n
  }

  ghost function RunNetwork(configs: Id -> Config, n: Network, actions: seq<Action>): Network
    decreases |actions|
  {
    if actions == [] then n else RunNetwork(configs, Act(configs, n, actions[0]), actions[1..])
  }

  // --------------------------------------------------------------- accounting

  ghost function Ttl(p: Packet, walk: nat): nat {
    if IsWalk(p.message) && p.walk == walk then p.message.ttl else 0
  }

  /** What is left of a walk: the ttl of its message in flight. */
  ghost function Left(flight: seq<Packet>, walk: nat): nat {
    if flight == [] then 0 else Ttl(flight[0], walk) + Left(flight[1..], walk)
  }

  lemma {:induction false} LeftConcat(a: seq<Packet>, b: seq<Packet>, walk: nat)
    ensures Left(a + b, walk) == Left(a, walk) + Left(b, walk)
    decreases |a|
  {
    if a == [] {
      assert a + b == b;
    } else {
      assert (a + b)[1..] == a[1..] + b;
      LeftConcat(a[1..], b, walk);
    }
  }

  lemma LeftOne(p: Packet, walk: nat)
    ensures Left([p], walk) == Ttl(p, walk)
  {
    assert [p][1..] == [];
  }

  lemma LeftRemoved(flight: seq<Packet>, index: nat, walk: nat)
    requires index < |flight|
    ensures Left(flight, walk) == Left(Removed(flight, index), walk) + Ttl(flight[index], walk)
  {
    LeftOne(flight[index], walk);
    LeftConcat(flight[..index], [flight[index]], walk);
    LeftConcat(flight[..index] + [flight[index]], flight[index + 1..], walk);
    LeftConcat(flight[..index], flight[index + 1..], walk);
    assert flight == flight[..index] + [flight[index]] + flight[index + 1..];
  }

  /** No two messages are of the same walk. */
  ghost predicate Apart(flight: seq<Packet>) {
    forall i, j :: 0 <= i < j < |flight| && IsWalk(flight[i].message) && IsWalk(flight[j].message) ==>
      flight[i].walk != flight[j].walk
  }

  /** Every walk message in flight belongs to a walk of its own. */
  ghost predicate Named(n: Network) {
    && (forall p :: p in n.flight && IsWalk(p.message) ==> p.walk < |n.walks|)
    && Apart(n.flight)
  }

  /** How often a walk may be forwarded: `limits` for the walks there were when
      counting began, the ttl it set out with for a later one. */
  ghost function Limit(n: Network, limits: seq<nat>, walk: nat): nat
    requires walk < |n.walks|
  {
    if walk < |limits| then limits[walk] else n.walks[walk].born
  }

  /** Forwards made and hops left are within a walk's limit; `cause` is the walk
      message being handled, if any, which is no longer in flight. */
  ghost predicate Accounted(n: Network, limits: seq<nat>, cause: seq<Packet>) {
    && |limits| <= |n.walks|
    && (forall p :: p in n.flight && IsWalk(p.message) ==> p.walk < |n.walks|)
    && (forall p :: p in cause ==> p.walk < |n.walks|)
    && Apart(n.flight + cause)
    && forall w :: 0 <= w < |n.walks| ==>
         n.walks[w].forwards + Left(n.flight, w) + Left(cause, w) <= Limit(n, limits, w)
  }

  lemma {:induction false} LeftNew(flight: seq<Packet>, walk: nat)
    requires forall p :: p in flight && IsWalk(p.message) ==> p.walk < walk
    ensures Left(flight, walk) == 0
    decreases |flight|
  {
    if flight != [] {
      assert flight[0] in flight;
      LeftNew(flight[1..], walk);
    }
  }

  lemma ApartPosted(flight: seq<Packet>, p: Packet, cause: seq<Packet>)
    requires Apart(flight + cause) && |cause| <= 1
    requires IsWalk(p.message) ==> cause == [] && forall q :: q in flight && IsWalk(q.message) ==> q.walk != p.walk
    ensures Apart(flight + [p] + cause)
  {
    var before, after := flight + cause, flight + [p] + cause;
    forall i, j | 0 <= i < j < |after| && IsWalk(after[i].message) && IsWalk(after[j].message)
      ensures after[i].walk != after[j].walk
    {
      if j < |flight| {
        assert before[i] == after[i] && before[j] == after[j];
      } else if j == |flight| {
        assert after[i] in flight;
      } else {
        assert after[|flight|] == p && before[i] == after[i] && before[j - 1] == after[j];
      }
    }
  }

  lemma ApartPrefix(a: seq<Packet>, b: seq<Packet>)
    requires Apart(a + b)
    ensures Apart(a + [])
  {
    forall i | 0 <= i < |a| ensures (a + [])[i] == (a + b)[i] {}
  }

  lemma ApartForwarded(flight: seq<Packet>, p: Packet, q: Packet)
    requires Apart(flight + [p]) && IsWalk(p.message) && p.walk == q.walk
    ensures Apart(flight + [q] + [])
  {
    var before, after := flight + [p], flight + [q] + [];
    forall i, j | 0 <= i < j < |after| && IsWalk(after[i].message) && IsWalk(after[j].message)
      ensures after[i].walk != after[j].walk
    {
      assert before[i] == after[i] && before[j].walk == after[j].walk;
      assert IsWalk(before[j].message);
    }
  }

  lemma ApartMoved(flight: seq<Packet>, index: nat)
    requires Apart(flight) && index < |flight|
    ensures Apart(Removed(flight, index) + [flight[index]])
  {
    var moved := Removed(flight, index) + [flight[index]];
    forall i, j | 0 <= i < j < |moved| && IsWalk(moved[i].message) && IsWalk(moved[j].message)
      ensures moved[i].walk != moved[j].walk
    {
      assert moved[i] == flight[if i < index then i else i + 1];
      assert moved[j] == flight[if j == |flight| - 1 then index else if j < index then j else j + 1];
    }
  }

  lemma PostOther(n: Network, limits: seq<nat>, from: Id, to: Id, message: Message, cause: seq<Packet>)
    requires Accounted(n, limits, cause) && |cause| <= 1
    requires IsWalk(message) ==> cause == []
    ensures Accounted(PostOne(n, from, to, message, cause), limits, cause)
  {
    hide Left;
    var m := PostOne(n, from, to, message, cause);
    var p := m.flight[|n.flight|];
    ApartPosted(n.flight, p, cause);
    forall w | 0 <= w < |m.walks|
      ensures m.walks[w].forwards + Left(m.flight, w) + Left(cause, w) <= Limit(m, limits, w)
    {
      LeftConcat(n.flight, [p], w);
      LeftOne(p, w);
      if w == |n.walks| { LeftNew(n.flight, w); LeftNew(cause, w); }
    }
  }

  /** A forward is paid for by the message that caused it. */
  lemma PostForward(n: Network, limits: seq<nat>, from: Id, to: Id, p: Packet)
    requires Accounted(n, limits, [p]) && IsWalk(p.message) && p.message.ttl > 0
    ensures Accounted(PostOne(n, from, to, p.message.(ttl := p.message.ttl - 1), [p]), limits, [])
    ensures |PostOne(n, from, to, p.message.(ttl := p.message.ttl - 1), [p]).walks| == |n.walks|
  {
    hide Left;
    assert p in [p];
    var message := p.message.(ttl := p.message.ttl - 1);
    var m := PostOne(n, from, to, message, [p]);
    var q := Packet(from, to, message, p.walk);
    assert m.flight == n.flight + [q];
    ApartForwarded(n.flight, p, q);
    forall w | 0 <= w < |m.walks|
      ensures m.walks[w].forwards + Left(m.flight, w) + Left([], w) <= Limit(m, limits, w)
    {
      LeftConcat(n.flight, [q], w);
      LeftOne(q, w);
      LeftOne(p, w);
      LeftNew([], w);
    }
  }

  lemma {:induction false} PostNoWalk(n: Network, limits: seq<nat>, from: Id, out: seq<Out>, cause: seq<Packet>, spare: seq<Packet>)
    requires Accounted(n, limits, spare) && NoWalk(out) && |spare| <= 1
    ensures Accounted(Post(n, from, out, cause), limits, spare)
    decreases |out|
  {
    hide Accounted, Left;
    if out != [] {
      assert out[0] in out;
      if out[0].Send? {
        PostOther(n, limits, from, out[0].peer, out[0].message, spare);
        PostNoWalk(PostOne(n, from, out[0].peer, out[0].message, cause), limits, from, out[1..], cause, spare);
      } else {
        PostNoWalk(n, limits, from, out[1..], cause, spare);
      }
    }
  }

  lemma {:induction false} PostFresh(n: Network, limits: seq<nat>, from: Id, out: seq<Out>)
    requires Accounted(n, limits, [])
    ensures Accounted(Post(n, from, out, []), limits, [])
    decreases |out|
  {
    hide Accounted, Left, PostOne;
    if out != [] {
      if out[0].Send? {
        PostOther(n, limits, from, out[0].peer, out[0].message, []);
        PostFresh(PostOne(n, from, out[0].peer, out[0].message, []), limits, from, out[1..]);
      } else {
        PostFresh(n, limits, from, out[1..]);
      }
    }
  }

  lemma {:induction false} PostConcat(n: Network, from: Id, a: seq<Out>, b: seq<Out>, cause: seq<Packet>)
    ensures Post(n, from, a + b, cause) == Post(Post(n, from, a, cause), from, b, cause)
    decreases |a|
  {
    hide PostOne;
    if a == [] {
      assert a + b == b;
    } else {
      assert (a + b)[1..] == a[1..] + b;
      PostConcat(if a[0].Send? then PostOne(n, from, a[0].peer, a[0].message, cause) else n, from, a[1..], b, cause);
    }
  }

  lemma Forgive(n: Network, limits: seq<nat>, cause: seq<Packet>)
    requires Accounted(n, limits, cause)
    ensures Accounted(n, limits, [])
  {
    hide Left, Apart;
    ApartPrefix(n.flight, cause);
    forall w | 0 <= w < |n.walks| ensures Left([], w) == 0 { LeftNew([], w); }
  }

  lemma PostWalk(n: Network, limits: seq<nat>, from: Id, out: seq<Out>, p: Packet)
    requires Accounted(n, limits, [p]) && IsWalk(p.message) && Forwards(p.message, out)
    ensures Accounted(Post(n, from, out, [p]), limits, [])
  {
    hide Accounted, PostOne, NoWalk;
    if NoWalk(out) {
      PostNoWalk(n, limits, from, out, [p], [p]);
      Forgive(Post(n, from, out, [p]), limits, [p]);
    } else {
      var pre, to, post :| ForwardsOnce(p.message, out, pre, to, post);
      var hop := [Send(to, p.message.(ttl := p.message.ttl - 1))];
      PostConcat(n, from, pre + hop, post, [p]);
      PostConcat(n, from, pre, hop, [p]);
      PostNoWalk(n, limits, from, pre, [p], [p]);
      var mid := Post(n, from, pre, [p]);
      PostForward(mid, limits, from, to, p);
      assert hop[1..] == [];
      PostNoWalk(Post(mid, from, hop, [p]), limits, from, post, [p], []);
    }
  }

  lemma TakenOff(n: Network, limits: seq<nat>, index: nat)
    requires Accounted(n, limits, []) && index < |n.flight|
    ensures Accounted(n.(flight := Removed(n.flight, index)), limits, if IsWalk(n.flight[index].message) then [n.flight[index]] else [])
  {
    hide Left, Apart;
    var p := n.flight[index];
    var m := n.(flight := Removed(n.flight, index));
    var cause := if IsWalk(p.message) then [p] else [];
    assert p in n.flight;
    assert n.flight + [] == n.flight;
    ApartMoved(n.flight, index);
    ApartPrefix(m.flight, [p]);
    forall w | 0 <= w < |m.walks|
      ensures m.walks[w].forwards + Left(m.flight, w) + Left(cause, w) <= Limit(m, limits, w)
    {
      LeftRemoved(n.flight, index, w);
      LeftOne(p, w);
      LeftNew([], w);
    }
  }

  lemma ActAccounted(configs: Id -> Config, n: Network, limits: seq<nat>, a: Action)
    requires Accounted(n, limits, [])
    ensures Accounted(Act(configs, n, a), limits, [])
  {
    hide Left, Handle, Post, Removed, Forwards;
    match a
    case Lose(index) =>
      if index < |n.flight| {
        TakenOff(n, limits, index);
        Forgive(n.(flight := Removed(n.flight, index)), limits, if IsWalk(n.flight[index].message) then [n.flight[index]] else []);
      }
    case Deliver(index, now, draws) =>
      if index < |n.flight| && n.flight[index].to in n.nodes {
        var p := n.flight[index];
        var t := n.nodes[p.to].(draws := draws);
        var s := Handle(configs(p.to), t, Recv(p.from, p.message), now);
        TakenOff(n, limits, index);
        var m := n.(flight := Removed(n.flight, index), nodes := n.nodes[p.to := s.t]);
        if IsWalk(p.message) {
          HandleForwards(configs(p.to), t, p.from, p.message, now);
          PostWalk(m, limits, p.to, s.out, p);
        } else {
          PostFresh(m, limits, p.to, s.out);
        }
      }
    case Local(node, event, now, draws) =>
      if node in n.nodes && !event.Recv? {
        var s := Handle(configs(node), n.nodes[node].(draws := draws), event, now);
        PostFresh(n.(nodes := n.nodes[node := s.t]), limits, node, s.out);
      }
  }

  lemma {:induction false} RunAccounted(configs: Id -> Config, n: Network, limits: seq<nat>, actions: seq<Action>)
    requires Accounted(n, limits, [])
    ensures Accounted(RunNetwork(configs, n, actions), limits, [])
    decreases |actions|
  {
    hide Accounted, Act;
    if actions != [] {
      ActAccounted(configs, n, limits, actions[0]);
      RunAccounted(configs, Act(configs, n, actions[0]), limits, actions[1..]);
    }
  }

  lemma {:induction false} LeftIn(flight: seq<Packet>, p: Packet, walk: nat)
    requires p in flight
    ensures Ttl(p, walk) <= Left(flight, walk)
    decreases |flight|
  {
    if flight[0] != p { LeftIn(flight[1..], p, walk); }
  }

  lemma LeftAlone(flight: seq<Packet>, p: Packet)
    requires p in flight && IsWalk(p.message) && Apart(flight)
    ensures Left(flight, p.walk) == p.message.ttl
  {
    hide Left;
    var i :| 0 <= i < |flight| && flight[i] == p;
    LeftRemoved(flight, i, p.walk);
    LeftNone(Removed(flight, i), p.walk);
  }

  lemma {:induction false} LeftNone(flight: seq<Packet>, walk: nat)
    requires forall p :: p in flight && IsWalk(p.message) ==> p.walk != walk
    ensures Left(flight, walk) == 0
    decreases |flight|
  {
    if flight != [] {
      assert flight[0] in flight;
      LeftNone(flight[1..], walk);
    }
  }

  /** Every run from a network whose walks have one message each leads to such a
      network, and forwards each walk at most as often as its message in flight
      allows, and not at all when it has none. */
  lemma WalksBounded(configs: Id -> Config, start: Network, actions: seq<Action>)
    requires Named(start)
    ensures var end := RunNetwork(configs, start, actions);
            && Named(end) && |start.walks| <= |end.walks|
            && forall w :: 0 <= w < |start.walks| ==>
                 end.walks[w].forwards + Left(end.flight, w) <= start.walks[w].forwards + Left(start.flight, w)
  {
    hide RunNetwork, Left;
    var limits := seq(|start.walks|, i requires 0 <= i < |start.walks| => start.walks[i].forwards + Left(start.flight, i));
    forall w: nat ensures Left([], w) == 0 { LeftNone([], w); }
    assert start.flight + [] == start.flight;
    RunAccounted(configs, start, limits, actions);
    var end := RunNetwork(configs, start, actions);
    assert end.flight + [] == end.flight;
  }

  /** A walk message with ttl k in flight leads to at most k more forwards. */
  lemma HopsLeft(configs: Id -> Config, start: Network, actions: seq<Action>, p: Packet)
    requires Named(start) && p in start.flight && IsWalk(p.message)
    ensures var end := RunNetwork(configs, start, actions);
            && p.walk < |end.walks|
            && end.walks[p.walk].forwards <= start.walks[p.walk].forwards + p.message.ttl
  {
    hide RunNetwork, Left;
    WalksBounded(configs, start, actions);
    LeftAlone(start.flight, p);
  }

  /** In every run of every network, whatever the random choices, each walk is
      forwarded at most as often as the ttl it set out with allows, and a
      message of it still in flight has at most the rest as its ttl. */
  lemma WalksEnd(configs: Id -> Config, nodes: map<Id, Topic>, actions: seq<Action>, w: nat)
    requires w < |RunNetwork(configs, Network(nodes, [], []), actions).walks|
    ensures var end := RunNetwork(configs, Network(nodes, [], []), actions);
            && end.walks[w].forwards <= end.walks[w].born
            && forall p :: p in end.flight && IsWalk(p.message) && p.walk == w ==>
                 end.walks[w].forwards + p.message.ttl <= end.walks[w].born
  {
    hide RunNetwork, Left;
    RunAccounted(configs, Network(nodes, [], []), [], actions);
    var end := RunNetwork(configs, Network(nodes, [], []), actions);
    forall p | p in end.flight && IsWalk(p.message) && p.walk == w
      ensures p.message.ttl <= Left(end.flight, w)
    {
      LeftIn(end.flight, p, w);
    }
  }
}
