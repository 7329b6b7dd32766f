/** The two views, the push sets and the neighbour events, over every step of a topic. */
module GossipViews {
  import opened Bytes
  import opened GossipTypes
  import opened GossipTopic

  ghost function Members(s: seq<Id>): set<Id> {
    set x | x in s
  }

  /** Views fit their capacities, are disjoint and leave this node out. */
  ghost predicate ViewsOk(c: Config, t: Topic) {
    && NoDup(t.neighbors) && NoDup(t.passive)
    && |t.neighbors| <= c.activeCapacity && |t.passive| <= c.passiveCapacity
    && c.me !in t.neighbors && c.me !in t.passive
    && (forall p :: p in t.neighbors ==> p !in t.passive)
  }

  /** Every neighbour is in exactly one push set; only lazy peers have queues. */
  ghost predicate PushOk(t: Topic) {
    && NoDup(t.eager) && NoDup(t.lazy)
    && (forall p :: p in t.eager ==> p !in t.lazy)
    && (forall p :: p in t.neighbors ==> p in t.eager || p in t.lazy)
    && (forall q :: q in t.lazyQueue ==> q.peer in t.lazy)
  }

  ghost predicate ViewInv(c: Config, t: Topic) { ViewsOk(c, t) && PushOk(t) }

  /** Replays neighbour events: a peer may only come up when down, and down when up. */
  ghost function Replay(up: set<Id>, out: seq<Out>): Option<set<Id>>
    decreases |out|
  {
    if out == [] then Some(up)
    else
      match out[0]
      case Emit(NeighborUp(p)) => if p in up then None else Replay(up + {p}, out[1..])
      case Emit(NeighborDown(p)) => if p !in up then None else Replay(up - {p}, out[1..])
      case _ => Replay(up, out[1..])
  }

  lemma {:induction false} ReplayConcat(up: set<Id>, a: seq<Out>, b: seq<Out>)
    ensures Replay(up, a + b) ==
            if Replay(up, a).None? then None else Replay(Replay(up, a).value, b)
    decreases |a|
  {
    if a == [] {
      assert a + b == b;
    } else {
      assert (a + b)[1..] == a[1..] + b;
      match a[0]
      case Emit(NeighborUp(p)) => ReplayConcat(up + {p}, a[1..], b);
      case Emit(NeighborDown(p)) => ReplayConcat(up - {p}, a[1..], b);
      case _ => ReplayConcat(up, a[1..], b);
    }
  }

  /** Nothing but neighbour events can move the replayed view. */
  ghost predicate Quiet(out: seq<Out>) {
    forall o :: o in out ==> o.Emit? ==> o.event.Received?
  }

  lemma {:induction false} QuietReplay(up: set<Id>, out: seq<Out>)
    requires Quiet(out)
    ensures Replay(up, out) == Some(up)
    decreases |out|
  {
    if out != [] {
      assert out[0] in out;
      QuietReplay(up, out[1..]);
    }
  }

  /** What every step but quitting does: it keeps the invariant, and its
      neighbour events lead from the old active view to the new one. */
  ghost predicate Good(c: Config, t: Topic, s: Step) {
    ViewInv(c, t) ==>
      ViewInv(c, s.t) && Replay(Members(t.neighbors), s.out) == Some(Members(s.t.neighbors))
  }

  /** No delivery, and no GRAFT. */
  ghost predicate Silent(out: seq<Out>) {
    forall o :: o in out ==> !(o.Emit? && o.event.Received?) && !(o.Send? && o.message.Graft?)
  }

  /** What membership steps leave alone: they learn no message, ask for none
      and at most shorten the queues of missing ones. */
  ghost predicate Calm(t: Topic, s: Step) {
    && Silent(s.out)
    && s.t.seen == t.seen && s.t.cache == t.cache && s.t.graftScheduled == t.graftScheduled
    && forall id :: id in s.t.missing ==>
         id in t.missing && |s.t.missing[id]| <= |t.missing[id]| && (s.t.missing[id] == [] ==> t.missing[id] == [])
  }

  lemma GoodThen(c: Config, t: Topic, a: Step, b: Step)
    requires Good(c, t, a) && Good(c, a.t, b)
    ensures Good(c, t, Step(b.t, a.out + b.out))
    ensures Calm(t, a) && Calm(a.t, b) ==> Calm(t, Step(b.t, a.out + b.out))
  {
    hide ViewInv, Replay;
    ReplayConcat(Members(t.neighbors), a.out, b.out);
  }

  lemma CalmThen(t: Topic, a: Step, b: Step)
    requires Calm(t, a) && Calm(a.t, b)
    ensures Calm(t, Step(b.t, a.out + b.out))
  {
  }

  /** A step that leaves views and push sets alone. */
  ghost predicate SameViews(t: Topic, u: Topic) {
    && t.neighbors == u.neighbors && t.passive == u.passive
    && t.eager == u.eager && t.lazy == u.lazy && t.lazyQueue == u.lazyQueue
  }

  ghost predicate SameGossip(t: Topic, u: Topic) {
    && t.seen == u.seen && t.cache == u.cache
    && t.graftScheduled == u.graftScheduled && t.missing == u.missing
  }

  lemma GoodSame(c: Config, t: Topic, s: Step)
    requires SameViews(t, s.t) && Quiet(s.out)
    ensures Good(c, t, s)
    ensures Silent(s.out) && SameGossip(t, s.t) ==> Calm(t, s)
  {
    hide NoDup, Replay;
    QuietReplay(Members(t.neighbors), s.out);
  }

  lemma GoodQuiet(c: Config, t: Topic, s: Step)
    requires Quiet(s.out) && s.t.neighbors == t.neighbors
    requires ViewInv(c, t) ==> ViewInv(c, s.t)
    ensures Good(c, t, s)
    ensures Silent(s.out) && SameGossip(t, s.t) ==> Calm(t, s)
  {
    hide ViewInv, Replay;
    QuietReplay(Members(t.neighbors), s.out);
  }

  // ------------------------------------------------------------- set lemmas

  lemma {:induction false} WithoutNoDup(s: seq<Id>, x: Id)
    requires NoDup(s)
    ensures NoDup(Without(s, x))
    decreases |s|
  {
    if s != [] {
      WithoutNoDup(s[1..], x);
      var rest := Without(s[1..], x);
      assert ([s[0]] + rest)[1..] == rest;
    }
  }

  lemma {:induction false} AppendNoDup(s: seq<Id>, x: Id)
    requires NoDup(s) && x !in s
    ensures NoDup(s + [x])
    decreases |s|
  {
    if s == [] {
      assert s + [x] == [x];
    } else {
      AppendNoDup(s[1..], x);
      assert (s + [x])[1..] == s[1..] + [x];
    }
  }

  lemma WithNoDup(s: seq<Id>, x: Id)
    requires NoDup(s)
    ensures NoDup(With(s, x)) && (forall y :: y in With(s, x) <==> y in s || y == x)
  {
    if x !in s { AppendNoDup(s, x); }
  }

  // ------------------------------------------------------------- primitives

  lemma GoodPeerData(c: Config, t: Topic, peer: Id, data: Option<Bytes>)
    ensures Good(c, t, AddPeerData(t, peer, data))
    ensures Calm(t, AddPeerData(t, peer, data))
  {
    hide Good, Calm;
    GoodSame(c, t, AddPeerData(t, peer, data));
  }

  lemma GoodSendNeighbor(c: Config, t: Topic, peer: Id, priority: Priority)
    ensures Good(c, t, SendNeighbor(t, peer, priority))
    ensures Calm(t, SendNeighbor(t, peer, priority))
  {
    hide Good, Calm;
    GoodSame(c, t, SendNeighbor(t, peer, priority));
  }

  lemma GoodFarewell(c: Config, t: Topic, peer: Id, alive: bool)
    ensures Good(c, t, Farewell(c, t, peer, alive))
    ensures Calm(t, Farewell(c, t, peer, alive))
    ensures SameViews(t, Farewell(c, t, peer, alive).t)
  {
    hide Good, Calm;
    GoodSame(c, t, Farewell(c, t, peer, alive));
  }

  lemma EvictPassiveRoom(c: Config, t: Topic)
    requires ValidConfig(c) && ViewInv(c, t)
    ensures ViewInv(c, EvictPassive(c, t)) && |EvictPassive(c, t).passive| < c.passiveCapacity
    ensures forall p :: p in EvictPassive(c, t).passive ==> p in t.passive
    ensures EvictPassive(c, t).neighbors == t.neighbors
  {
    hide NoDup;
    if |t.passive| >= c.passiveCapacity {
      WithoutNoDup(t.passive, t.passive[Draw(c, t.draws, |t.passive|)]);
    }
  }

  lemma SameInv(c: Config, t: Topic, u: Topic)
    requires ViewInv(c, t) && SameViews(t, u)
    ensures ViewInv(c, u)
  {
    hide NoDup;
  }

  lemma AppendPassive(c: Config, t: Topic, peer: Id)
    requires ViewInv(c, t) && |t.passive| < c.passiveCapacity
    requires peer != c.me && peer !in t.neighbors && peer !in t.passive
    ensures ViewInv(c, t.(passive := t.passive + [peer]))
  {
    hide NoDup;
    AppendNoDup(t.passive, peer);
  }

  lemma InsertKeeps(c: Config, t: Topic, peer: Id)
    requires ValidConfig(c) && ViewInv(c, t)
    ensures ViewInv(c, InsertPassive(c, t, peer))
  {
    hide NoDup, EvictPassive, ViewsOk, PushOk;
    if peer != c.me && peer !in t.neighbors && peer !in t.passive {
      EvictPassiveRoom(c, t);
      AppendPassive(c, EvictPassive(c, t), peer);
    }
  }

  lemma EvictFrame(c: Config, t: Topic)
    ensures EvictPassive(c, t).neighbors == t.neighbors && SameGossip(t, EvictPassive(c, t))
  {
    hide Without;
  }

  lemma InsertFrame(c: Config, t: Topic, peer: Id)
    ensures InsertPassive(c, t, peer).neighbors == t.neighbors && SameGossip(t, InsertPassive(c, t, peer))
  {
    hide EvictPassive;
    EvictFrame(c, t);
  }

  lemma GoodInsert(c: Config, t: Topic, peer: Id)
    requires ValidConfig(c)
    ensures Good(c, t, Step(InsertPassive(c, t, peer), []))
    ensures Calm(t, Step(InsertPassive(c, t, peer), []))
  {
    hide Good, Calm, ViewInv, InsertPassive;
    if ViewInv(c, t) { InsertKeeps(c, t, peer); }
    InsertFrame(c, t, peer);
    GoodQuiet(c, t, Step(InsertPassive(c, t, peer), []));
  }

  lemma GoodAddPassive(c: Config, t: Topic, peer: Id, data: Option<Bytes>)
    requires ValidConfig(c)
    ensures Good(c, t, AddPassive(c, t, peer, data))
    ensures Calm(t, AddPassive(c, t, peer, data))
    ensures AddPassive(c, t, peer, data).t.neighbors == t.neighbors
  {
    hide Good, Calm, InsertPassive;
    GoodPeerData(c, t, peer, data);
    var s := AddPeerData(t, peer, data);
    GoodInsert(c, s.t, peer);
    InsertFrame(c, s.t, peer);
    GoodThen(c, t, s, Step(InsertPassive(c, s.t, peer), []));
    assert s.out + [] == s.out;
  }

  lemma {:induction false} GoodAllPassive(c: Config, t: Topic, nodes: seq<PeerInfo>)
    requires ValidConfig(c)
    ensures Good(c, t, AddAllPassive(c, t, nodes))
    ensures Calm(t, AddAllPassive(c, t, nodes))
    ensures AddAllPassive(c, t, nodes).t.neighbors == t.neighbors
    decreases |nodes|
  {
    hide Good, Calm, AddPassive;
    if nodes == [] {
      GoodSame(c, t, AddAllPassive(c, t, nodes));
    } else {
      GoodAddPassive(c, t, nodes[0].id, nodes[0].data);
      var s := AddPassive(c, t, nodes[0].id, nodes[0].data);
      GoodAllPassive(c, s.t, nodes[1..]);
      GoodThen(c, t, s, AddAllPassive(c, s.t, nodes[1..]));
    }
  }

  lemma EagerKeeps(c: Config, t: Topic, peer: Id)
    requires ViewsOk(c, t) && NoDup(t.eager) && NoDup(t.lazy)
    requires forall p :: p in t.eager ==> p !in t.lazy
    requires forall p :: p in t.neighbors ==> p == peer || p in t.eager || p in t.lazy
    requires forall q :: q in t.lazyQueue ==> q.peer in t.lazy
    ensures ViewInv(c, AddEager(t, peer))
  {
    hide NoDup;
    WithoutNoDup(t.lazy, peer);
    WithNoDup(t.eager, peer);
  }

  lemma GoodEager(c: Config, t: Topic, peer: Id, out: seq<Out>)
    requires Quiet(out)
    ensures Good(c, t, Step(AddEager(t, peer), out))
    ensures Silent(out) ==> Calm(t, Step(AddEager(t, peer), out))
  {
    hide NoDup, Good, Calm;
    if ViewInv(c, t) { EagerKeeps(c, t, peer); }
    GoodQuiet(c, t, Step(AddEager(t, peer), out));
  }

  lemma GoodLazy(c: Config, t: Topic, peer: Id, out: seq<Out>)
    requires Quiet(out)
    ensures Good(c, t, Step(AddLazy(t, peer), out))
    ensures Silent(out) ==> Calm(t, Step(AddLazy(t, peer), out))
  {
    hide NoDup, Good, Calm;
    if ViewInv(c, t) {
      WithoutNoDup(t.eager, peer);
      WithNoDup(t.lazy, peer);
    }
    GoodQuiet(c, t, Step(AddLazy(t, peer), out));
  }

  // ---------------------------------------------------------- removing peers

  lemma ForgetKeeps(c: Config, t: Topic, peer: Id)
    requires ViewInv(c, t)
    ensures ViewInv(c, Forget(t, peer))
  {
    hide NoDup, DropMissing;
    WithoutNoDup(t.neighbors, peer);
    WithoutNoDup(t.eager, peer);
    WithoutNoDup(t.lazy, peer);
  }

  lemma CalmForget(t: Topic, peer: Id, out: seq<Out>)
    requires Silent(out)
    ensures Calm(t, Step(Forget(t, peer), out))
  {
    hide Without, DropQueue;
  }

  lemma GoodDown(c: Config, t: Topic, peer: Id)
    requires peer in t.neighbors
    ensures Good(c, t, Step(Forget(t, peer), [Emit(NeighborDown(peer))]))
  {
    hide ViewInv;
    if ViewInv(c, t) {
      ForgetKeeps(c, t, peer);
      var up := Members(t.neighbors);
      var out := [Emit(NeighborDown(peer))];
      assert out[1..] == [] && Replay(up - {peer}, out[1..]) == Some(up - {peer});
      assert Members(Without(t.neighbors, peer)) == Members(t.neighbors) - {peer};
    }
  }

  lemma GoodKeepPassive(c: Config, t: Topic, peer: Id)
    requires ValidConfig(c)
    ensures Good(c, t, Step(KeepPassive(c, t, peer), []))
    ensures Calm(t, Step(KeepPassive(c, t, peer), []))
    ensures KeepPassive(c, t, peer).neighbors == t.neighbors
  {
    hide InsertPassive, Good, Calm;
    GoodInsert(c, t, peer);
    InsertFrame(c, t, peer);
    var kept := InsertPassive(c, t, peer);
    var marked := Step(KeepPassive(c, t, peer), []);
    GoodSame(c, kept, marked);
    GoodThen(c, t, Step(kept, []), marked);
    assert marked.out + marked.out == marked.out;
  }

  lemma GoodRemoveActive(c: Config, t: Topic, peer: Id, keepPassive: bool, sendDisconnect: bool)
    requires ValidConfig(c)
    ensures Good(c, t, RemoveActive(c, t, peer, keepPassive, sendDisconnect))
    ensures Calm(t, RemoveActive(c, t, peer, keepPassive, sendDisconnect))
  {
    hide Good, Calm, Forget, Farewell, KeepPassive;
    if peer !in t.neighbors {
      GoodSame(c, t, Step(t, []));
    } else {
      GoodDown(c, t, peer);
      CalmForget(t, peer, [Emit(NeighborDown(peer))]);
      var gone := Forget(t, peer);
      var bye := if sendDisconnect then Farewell(c, gone, peer, true) else Step(gone, [DisconnectPeer(peer)]);
      if sendDisconnect { GoodFarewell(c, gone, peer, true); } else { GoodSame(c, gone, bye); }
      var down := Step(gone, [Emit(NeighborDown(peer))]);
      GoodThen(c, t, down, bye);
      if keepPassive {
        GoodKeepPassive(c, bye.t, peer);
        var kept := Step(KeepPassive(c, bye.t, peer), []);
        GoodThen(c, t, Step(bye.t, down.out + bye.out), kept);
        assert down.out + bye.out + [] == down.out + bye.out;
      }
    }
  }

  lemma RemoveActiveShrinks(c: Config, t: Topic, peer: Id, keepPassive: bool, sendDisconnect: bool)
    requires ValidConfig(c)
    ensures RemoveActive(c, t, peer, keepPassive, sendDisconnect).t.neighbors == Without(t.neighbors, peer)
  {
    hide Good, Calm, Without, DropMissing, Farewell, KeepPassive;
    if peer in t.neighbors {
      var gone := Forget(t, peer);
      var bye := if sendDisconnect then Farewell(c, gone, peer, true) else Step(gone, [DisconnectPeer(peer)]);
      if sendDisconnect { GoodFarewell(c, gone, peer, true); }
      GoodKeepPassive(c, bye.t, peer);
    }
  }

  // ------------------------------------------------------------ adding peers

  lemma GoodEvictActive(c: Config, t: Topic)
    requires ValidConfig(c)
    ensures Good(c, t, EvictActive(c, t))
    ensures Calm(t, EvictActive(c, t))
    ensures |t.neighbors| <= c.activeCapacity ==> |EvictActive(c, t).t.neighbors| < c.activeCapacity
    ensures forall p :: p in EvictActive(c, t).t.neighbors ==> p in t.neighbors
  {
    hide Good, Calm, RemoveActive, Without;
    if |t.neighbors| >= c.activeCapacity {
      var u := t.(draws := t.draws + 1);
      var evicted := t.neighbors[Draw(c, t.draws, |t.neighbors|)];
      GoodSame(c, t, Step(u, []));
      GoodRemoveActive(c, u, evicted, true, true);
      RemoveActiveShrinks(c, u, evicted, true, true);
      var s := RemoveActive(c, u, evicted, true, true);
      GoodThen(c, t, Step(u, []), s);
      assert [] + s.out == s.out;
    } else {
      GoodSame(c, t, Step(t, []));
    }
  }

  lemma EnterKeeps(c: Config, t: Topic, peer: Id)
    requires ViewInv(c, t) && peer != c.me && peer !in t.neighbors && |t.neighbors| < c.activeCapacity
    ensures ViewInv(c, EnterActive(t, peer))
  {
    hide NoDup, AddEager, Without;
    WithoutNoDup(t.passive, peer);
    WithNoDup(t.neighbors, peer);
    var u := t.(passive := Without(t.passive, peer), pending := t.pending - {peer},
                aliveDisconnect := t.aliveDisconnect - {peer}, neighbors := With(t.neighbors, peer));
    EagerKeeps(c, u, peer);
  }

  lemma CalmUp(t: Topic, peer: Id)
    ensures Calm(t, Step(EnterActive(t, peer), [Emit(NeighborUp(peer))]))
  {
    hide Without, DropQueue, With;
  }

  lemma GoodUp(c: Config, t: Topic, peer: Id)
    requires peer != c.me && peer !in t.neighbors
    requires ViewInv(c, t) ==> |t.neighbors| < c.activeCapacity
    ensures Good(c, t, Step(EnterActive(t, peer), [Emit(NeighborUp(peer))]))
  {
    hide ViewInv;
    if ViewInv(c, t) {
      EnterKeeps(c, t, peer);
      var up := Members(t.neighbors);
      var out := [Emit(NeighborUp(peer))];
      assert out[1..] == [] && Replay(up + {peer}, out[1..]) == Some(up + {peer});
      assert Members(With(t.neighbors, peer)) == up + {peer};
    }
  }

  lemma GoodEnter(c: Config, t: Topic, peer: Id, priority: Priority, reply: bool)
    requires ValidConfig(c) && peer != c.me && peer !in t.neighbors
    ensures Good(c, t, Enter(c, t, peer, priority, reply))
    ensures Calm(t, Enter(c, t, peer, priority, reply))
  {
    hide Good, Calm, EvictActive, EnterActive, SendNeighbor;
    GoodEvictActive(c, t);
    var e := EvictActive(c, t);
    var entered := EnterActive(e.t, peer);
    var upped := Step(entered, [Emit(NeighborUp(peer))]);
    CalmUp(e.t, peer);
    CalmThen(t, e, upped);
    if ViewInv(c, t) {
      GoodUp(c, e.t, peer);
      GoodThen(c, t, e, upped);
    } else {
      Vacuous(c, t, Step(entered, e.out + upped.out));
    }
    var n := if reply then SendNeighbor(entered, peer, priority) else Step(entered, []);
    if reply { GoodSendNeighbor(c, entered, peer, priority); } else { GoodSame(c, entered, n); }
    GoodThen(c, t, Step(entered, e.out + upped.out), n);
  }

  lemma Vacuous(c: Config, t: Topic, s: Step)
    requires !ViewInv(c, t)
    ensures Good(c, t, s)
  {
  }

  lemma GoodAddActive(c: Config, t: Topic, peer: Id, data: Option<Bytes>, priority: Priority, reply: bool)
    requires ValidConfig(c)
    ensures Good(c, t, AddActive(c, t, peer, data, priority, reply))
    ensures Calm(t, AddActive(c, t, peer, data, priority, reply))
  {
    hide Good, Calm, Enter, SendNeighbor, Farewell;
    if peer == c.me {
      GoodSame(c, t, Step(t, []));
    } else {
      GoodPeerData(c, t, peer, data);
      var s := AddPeerData(t, peer, data);
      if peer in s.t.neighbors {
        if reply {
          GoodSendNeighbor(c, s.t, peer, priority);
          GoodThen(c, t, s, SendNeighbor(s.t, peer, priority));
        }
      } else if priority.Low? && |s.t.neighbors| >= c.activeCapacity {
        GoodFarewell(c, s.t, peer, true);
        GoodThen(c, t, s, Farewell(c, s.t, peer, true));
      } else {
        GoodEnter(c, s.t, peer, priority, reply);
        GoodThen(c, t, s, Enter(c, s.t, peer, priority, reply));
      }
    }
  }

  // ---------------------------------------------------------------- handlers

  lemma GoodRefill(c: Config, t: Topic)
    ensures Good(c, t, Refill(c, t))
    ensures Calm(t, Refill(c, t))
  {
    hide Good, Calm, Filter;
    GoodSame(c, t, Refill(c, t));
  }

  lemma WithoutPassive(c: Config, t: Topic, u: Topic, peer: Id)
    requires ViewInv(c, t) && SameViews(t.(passive := Without(t.passive, peer)), u)
    ensures ViewInv(c, u)
  {
    hide NoDup, Without;
    WithoutNoDup(t.passive, peer);
  }

  lemma GoodWithoutPassive(c: Config, t: Topic, u: Topic, peer: Id, out: seq<Out>)
    requires SameViews(t.(passive := Without(t.passive, peer)), u) && Quiet(out)
    ensures Good(c, t, Step(u, out))
    ensures Silent(out) && SameGossip(t, u) ==> Calm(t, Step(u, out))
  {
    hide ViewInv, Good, Calm, Without;
    if ViewInv(c, t) { WithoutPassive(c, t, u, peer); }
    GoodQuiet(c, t, Step(u, out));
  }

  lemma GoodRemoveNeighbor(c: Config, t: Topic, peer: Id)
    requires ValidConfig(c)
    ensures Good(c, t, RemoveNeighbor(c, t, peer))
    ensures Calm(t, RemoveNeighbor(c, t, peer))
  {
    hide Good, Calm, Refill, Farewell, KeepPassive, Forget, Without;
    GoodRemoveActive(c, t, peer, false, false);
    var active := RemoveActive(c, t, peer, false, false);
    if active.out != [] {
      GoodRefill(c, active.t);
      GoodThen(c, t, active, Refill(c, active.t));
    } else if peer in t.aliveDisconnect {
      GoodSame(c, t, RemoveNeighbor(c, t, peer));
    } else {
      GoodWithoutPassive(c, t, RemoveNeighbor(c, t, peer).t, peer, []);
    }
  }

  lemma GoodDisconnect(c: Config, t: Topic, peer: Id, alive: bool)
    requires ValidConfig(c)
    ensures Good(c, t, HandleDisconnect(c, t, peer, alive))
    ensures Calm(t, HandleDisconnect(c, t, peer, alive))
  {
    hide Good, Calm, Refill, Farewell, KeepPassive, Forget, Without;
    GoodRemoveActive(c, t, peer, alive, false);
    var active := RemoveActive(c, t, peer, alive, false);
    if active.out != [] {
      GoodRefill(c, active.t);
      GoodThen(c, t, active, Refill(c, active.t));
    } else if alive {
      GoodSame(c, t, HandleDisconnect(c, t, peer, alive));
    } else {
      GoodWithoutPassive(c, t, HandleDisconnect(c, t, peer, alive).t, peer, [DisconnectPeer(peer)]);
    }
  }

  lemma GoodPendingNeighbor(c: Config, t: Topic, peer: Id)
    ensures Good(c, t, HandlePendingNeighbor(c, t, peer))
    ensures Calm(t, HandlePendingNeighbor(c, t, peer))
  {
    hide Good, Calm, Refill, Without;
    if peer !in t.pending {
      GoodSame(c, t, Step(t, []));
    } else {
      var left := t.(pending := t.pending - {peer}, passive := Without(t.passive, peer),
                     aliveDisconnect := t.aliveDisconnect - {peer}, dataByPeer := t.dataByPeer - {peer});
      GoodWithoutPassive(c, t, left, peer, [DisconnectPeer(peer)]);
      GoodRefill(c, left);
      GoodThen(c, t, Step(left, [DisconnectPeer(peer)]), Refill(c, left));
    }
  }

  lemma GoodForwardJoin(c: Config, t: Topic, sender: Id, info: PeerInfo, ttl: nat)
    requires ValidConfig(c)
    ensures Good(c, t, HandleForwardJoin(c, t, sender, info, ttl))
    ensures Calm(t, HandleForwardJoin(c, t, sender, info, ttl))
  {
    hide Good, Calm, AddPassive, AddPeerData, SendNeighbor, PickActiveExcept;
    if info.id in t.neighbors || ttl == 0 || |t.neighbors| <= 1 {
      GoodPeerData(c, t, info.id, info.data);
      var s := AddPeerData(t, info.id, info.data);
      GoodSendNeighbor(c, s.t, info.id, High);
      GoodThen(c, t, s, SendNeighbor(s.t, info.id, High));
    } else {
      var s := if ttl == PASSIVE_WALK then AddPassive(c, t, info.id, info.data) else Step(t, []);
      if ttl == PASSIVE_WALK { GoodAddPassive(c, t, info.id, info.data); } else { GoodSame(c, t, s); }
      var next := PickActiveExcept(c, s.t, {sender});
      if info.id !in s.t.pending && next.peer.Some? {
        var sent := Step(s.t.(draws := next.draws), [Send(next.peer.value, ForwardJoin(info, Lower(ttl)))]);
        GoodSame(c, s.t, sent);
        GoodThen(c, t, s, sent);
      }
    }
  }

  lemma GoodShuffle(c: Config, t: Topic, sender: Id, origin: Id, nodes: seq<PeerInfo>, ttl: nat)
    requires ValidConfig(c)
    ensures Good(c, t, HandleShuffle(c, t, sender, origin, nodes, ttl))
    ensures Calm(t, HandleShuffle(c, t, sender, origin, nodes, ttl))
    ensures HandleShuffle(c, t, sender, origin, nodes, ttl).t.neighbors == t.neighbors
  {
    hide Good, Calm, AddAllPassive, PickActiveExcept, Sample, InfosOf;
    if ttl == 0 || |t.neighbors| <= 1 {
      GoodAllPassive(c, t, nodes);
      var s := AddAllPassive(c, t, nodes);
      var sample := Sample(c, s.t.draws, s.t.passive + s.t.neighbors, |nodes|);
      var sent := Step(s.t.(draws := sample.draws), [Send(origin, ShuffleReply(InfosOf(s.t.dataByPeer, sample.peers)))]);
      GoodSame(c, s.t, sent);
      GoodThen(c, t, s, sent);
    } else {
      GoodSame(c, t, HandleShuffle(c, t, sender, origin, nodes, ttl));
    }
  }

  lemma GoodJoin(c: Config, t: Topic, peer: Id, data: Option<Bytes>)
    requires ValidConfig(c)
    ensures Good(c, t, HandleJoin(c, t, peer, data))
    ensures Calm(t, HandleJoin(c, t, peer, data))
  {
    hide Good, Calm, AddActive, ForwardJoins;
    GoodAddActive(c, t, peer, data, High, true);
    var s := AddActive(c, t, peer, data, High, true);
    var sent := Step(s.t, ForwardJoins(s.t.neighbors, PeerInfo(peer, data)));
    GoodSame(c, s.t, sent);
    GoodThen(c, t, s, sent);
  }

  lemma GoodNeighbor(c: Config, t: Topic, peer: Id, priority: Priority, data: Option<Bytes>)
    requires ValidConfig(c)
    ensures Good(c, t, HandleNeighbor(c, t, peer, priority, data))
    ensures Calm(t, HandleNeighbor(c, t, peer, priority, data))
  {
    hide Good, Calm, AddActive;
    var u := Step(t.(pending := t.pending - {peer}), []);
    GoodSame(c, t, u);
    GoodAddActive(c, u.t, peer, data, priority, peer !in t.pending);
    var s := AddActive(c, u.t, peer, data, priority, peer !in t.pending);
    GoodThen(c, t, u, s);
    assert [] + s.out == s.out;
  }

  lemma GoodShuffleReply(c: Config, t: Topic, nodes: seq<PeerInfo>)
    requires ValidConfig(c)
    ensures Good(c, t, HandleShuffleReply(c, t, nodes))
    ensures Calm(t, HandleShuffleReply(c, t, nodes))
  {
    hide Good, Calm, AddAllPassive, Refill;
    GoodAllPassive(c, t, nodes);
    var s := AddAllPassive(c, t, nodes);
    GoodRefill(c, s.t);
    GoodThen(c, t, s, Refill(c, s.t));
  }

  // --------------------------------------------------------------- broadcast

  lemma {:induction false} PushOnePeers(queues: seq<Queue>, peer: Id, entry: Entry, lazy: seq<Id>)
    requires peer in lazy && forall q :: q in queues ==> q.peer in lazy
    ensures forall q :: q in PushOne(queues, peer, entry) ==> q.peer in lazy
    decreases |queues|
  {
    if queues != [] {
      assert queues[0] in queues;
      PushOnePeers(queues[1..], peer, entry, lazy);
    }
  }

  lemma {:induction false} PushEachPeers(queues: seq<Queue>, peers: seq<Id>, sender: Id, entry: Entry, lazy: seq<Id>)
    requires forall q :: q in queues ==> q.peer in lazy
    requires forall p :: p in peers ==> p in lazy
    ensures forall q :: q in PushEach(queues, peers, sender, entry) ==> q.peer in lazy
    decreases |peers|
  {
    hide PushOne;
    if peers != [] {
      assert peers[0] in peers;
      PushOnePeers(queues, peers[0], entry, lazy);
      PushEachPeers(if peers[0] == sender then queues else PushOne(queues, peers[0], entry), peers[1..], sender,
                    entry, lazy);
    }
  }

  lemma GoodLazyPush(c: Config, t: Topic, id: Id, round: nat, sender: Id)
    ensures Good(c, t, LazyPush(t, id, round, sender))
  {
    hide Good, NoDup, PushEach;
    if ViewInv(c, t) { PushEachPeers(t.lazyQueue, t.lazy, sender, Entry(id, round), t.lazy); }
    GoodQuiet(c, t, LazyPush(t, id, round, sender));
  }

  lemma SameAnnounce(t: Topic, peer: Id, entry: Entry, now: int)
    ensures SameViews(t, Announce(t, peer, entry, now).t) && Quiet(Announce(t, peer, entry, now).out)
  {
    hide Enqueue;
  }

  lemma {:induction false} SameIHave(t: Topic, peer: Id, entries: seq<Entry>, now: int)
    ensures SameViews(t, HandleIHave(t, peer, entries, now).t) && Quiet(HandleIHave(t, peer, entries, now).out)
    decreases |entries|
  {
    hide Announce;
    if entries != [] {
      SameAnnounce(t, peer, entries[0], now);
      SameIHave(Announce(t, peer, entries[0], now).t, peer, entries[1..], now);
    }
  }

  lemma GoodGossip(c: Config, t: Topic, peer: Id, message: Broadcast, now: int)
    ensures Good(c, t, HandleGossip(c, t, peer, message, now))
  {
    hide Good, LazyPush, EagerPush, AddLazy;
    if message.id == c.hash(message.content) && HasSeen(t, message.id, now) {
      GoodLazy(c, t, peer, [Send(peer, Prune)]);
    } else if message.id != c.hash(message.content) || message.scope.Neighbors? {
      GoodSame(c, t, HandleGossip(c, t, peer, message, now));
    } else {
      var u := DropExpired(t, message.id, now);
      var news := message.(scope := Swarm(message.scope.round + 1));
      var stored := Store(u, news, now);
      var known := stored.(graftScheduled := stored.graftScheduled - {news.id}, missing := stored.missing - {news.id});
      var first := Step(known, [Deliver(peer, news)] + EagerPush(known, news, peer));
      EagerPlain(known, news, peer);
      GoodSame(c, t, first);
      GoodLazyPush(c, known, news.id, news.scope.round, peer);
      GoodThen(c, t, first, LazyPush(known, news.id, news.scope.round, peer));
    }
  }

  lemma EagerPlain(t: Topic, message: Broadcast, sender: Id)
    ensures Plain(EagerPush(t, message, sender))
  {
  }

  lemma GoodBroadcast(c: Config, t: Topic, payload: Bytes, swarm: bool, now: int)
    ensures Good(c, t, HandleBroadcast(c, t, payload, swarm, now))
  {
    hide Good, LazyPush, EagerPush;
    if swarm {
      var message := Gossip(c.hash(payload), payload, Swarm(0));
      var stored := Store(t, message, now);
      GoodSame(c, t, Step(stored, []));
      GoodLazyPush(c, stored, message.id, 0, c.me);
      var lazy := LazyPush(stored, message.id, 0, c.me);
      GoodThen(c, t, Step(stored, []), lazy);
      assert [] + lazy.out == lazy.out;
      EagerPlain(lazy.t, message, c.me);
      var sent := Step(lazy.t, EagerPush(lazy.t, message, c.me));
      GoodSame(c, lazy.t, sent);
      GoodThen(c, t, lazy, sent);
    } else {
      EagerPlain(t, Gossip(c.hash(payload), payload, Neighbors), c.me);
      GoodSame(c, t, HandleBroadcast(c, t, payload, swarm, now));
    }
  }

  lemma GoodGraftTimer(c: Config, t: Topic, id: Id, now: int)
    ensures Good(c, t, HandleGraftTimer(t, id, now))
  {
    hide Good, AddEager, Shift, QueueOf;
    var u := t.(graftScheduled := t.graftScheduled - {id});
    var v := DropExpired(u, id, now);
    var queue := QueueOf(v.missing, id);
    if HasSeen(u, id, now) || queue == [] {
      GoodSame(c, t, HandleGraftTimer(t, id, now));
    } else {
      var shifted := v.(missing := Shift(v.missing, id));
      var out := HandleGraftTimer(t, id, now).out;
      GoodSame(c, t, Step(shifted, []));
      GoodEager(c, shifted, queue[0].peer, out);
      GoodThen(c, t, Step(shifted, []), Step(AddEager(shifted, queue[0].peer), out));
      assert [] + out == out;
    }
  }

  lemma GoodDispatch(c: Config, t: Topic)
    ensures Good(c, t, HandleDispatch(c, t))
    ensures Calm(t, HandleDispatch(c, t))
  {
    hide Good, Calm, NoDup, Dispatches;
    GoodQuiet(c, t, HandleDispatch(c, t));
  }

  // ------------------------------------------------------------- whole steps

  lemma GoodMessage(c: Config, t: Topic, peer: Id, message: Message, now: int)
    requires ValidConfig(c)
    ensures Good(c, t, HandleMessage(c, t, peer, message, now))
    ensures !message.Gossip? && !message.IHave? ==> Calm(t, HandleMessage(c, t, peer, message, now))
  {
    hide Good, Calm, HandleJoin, HandleForwardJoin, HandleShuffle, HandleShuffleReply, HandleNeighbor, HandleDisconnect,
      HandleGossip, HandleIHave, AddLazy, AddEager;
    match message
    case Join(data) => GoodJoin(c, t, peer, data);
    case ForwardJoin(info, ttl) => GoodForwardJoin(c, t, peer, info, ttl);
    case Shuffle(origin, nodes, ttl) => GoodShuffle(c, t, peer, origin, nodes, ttl);
    case ShuffleReply(nodes) => GoodShuffleReply(c, t, nodes);
    case Neighbor(priority, data) => GoodNeighbor(c, t, peer, priority, data);
    case Disconnect(alive, _) => GoodDisconnect(c, t, peer, alive);
    case Gossip(_, _, _) => GoodGossip(c, t, peer, message, now);
    case Prune => GoodLazy(c, t, peer, []);
    case Graft(wanted, _) => GoodEager(c, t, peer, HandleGraft(t, peer, wanted).out);
    case IHave(entries) =>
      SameIHave(t, peer, entries, now);
      GoodSame(c, t, HandleIHave(t, peer, entries, now));
  }

  lemma GoodTimer(c: Config, t: Topic, timer: Timer, now: int)
    ensures Good(c, t, HandleTimer(c, t, timer, now))
    ensures !timer.SendGraft? ==> Calm(t, HandleTimer(c, t, timer, now))
  {
    hide Good, Calm, HandleDispatch, HandlePendingNeighbor, HandleGraftTimer, Sample, InfosOf, Without;
    match timer
    case DispatchLazyPush => GoodDispatch(c, t);
    case PendingNeighbor(peer) => GoodPendingNeighbor(c, t, peer);
    case SendGraft(id) => GoodGraftTimer(c, t, id, now);
    case DoShuffle => GoodSame(c, t, HandleTimer(c, t, timer, now));
  }

  /** The events that can change what is known of broadcast messages. */
  predicate Learning(event: Event) {
    || (event.Recv? && (event.message.Gossip? || event.message.IHave?))
    || event.CommandBroadcast?
    || (event.TimerExpired? && event.timer.SendGraft?)
  }

  lemma GoodDispatched(c: Config, t: Topic, event: Event, now: int)
    requires ValidConfig(c) && event != CommandQuit
    ensures Good(c, t, Dispatch(c, t, event, now))
    ensures !Learning(event) ==> Calm(t, Dispatch(c, t, event, now))
  {
    hide Good, Calm, HandleMessage, HandleBroadcast, RemoveNeighbor, HandleTimer, Joins;
    match event {
      case Recv(peer, message) => GoodMessage(c, t, peer, message, now);
      case CommandBroadcast(payload, swarm) => GoodBroadcast(c, t, payload, swarm, now);
      case PeerDisconnected(peer) => GoodRemoveNeighbor(c, t, peer);
      case TimerExpired(timer) => GoodTimer(c, t, timer, now);
      case CommandJoin(_) => GoodSame(c, t, Dispatch(c, t, event, now));
      case UpdatePeerData(_) => GoodSame(c, t, Dispatch(c, t, event, now));
    }
  }

  /** Every step but quitting keeps views and push sets in order and reports
      every change of the active view. */
  lemma GoodHandle(c: Config, t: Topic, event: Event, now: int)
    requires ValidConfig(c) && event != CommandQuit
    ensures Good(c, t, Handle(c, t, event, now))
  {
    hide Good, Dispatch;
    var u := Expire(t, now);
    GoodSame(c, t, Step(u, []));
    GoodDispatched(c, u, event, now);
    var s := Dispatch(c, u, event, now);
    GoodThen(c, t, Step(u, []), s);
    assert [] + s.out == s.out;
    var last := Step(s.t.(shuffleScheduled := true), [ScheduleShuffle()]);
    GoodSame(c, s.t, last);
    GoodThen(c, t, s, last);
  }
}
