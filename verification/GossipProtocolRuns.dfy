/** Whole runs of the protocol layer. */
module GossipProtocolRuns {
  import opened Bytes
  import opened GossipTypes
  import opened GossipTopic
  import opened GossipViews
  import opened GossipProtocol
  import opened GossipPeers

  /** Topics have distinct names and are each in order. */
  ghost predicate SlotsOk(c: Config, topics: seq<Slot>) {
    topics == [] ||
    (ViewInv(c, topics[0].t) && topics[0].id !in Ids(topics[1..]) && SlotsOk(c, topics[1..]))
  }

  ghost function Live(p: Protocol): set<Id> { Members(Ids(p.topics)) }

  ghost predicate ProtocolInv(c: Config, p: Protocol) {
    SlotsOk(c, p.topics) && MembersOk(p.members, Live(p))
  }

  lemma {:induction false} LookupOk(c: Config, topics: seq<Slot>, id: Id)
    requires SlotsOk(c, topics)
    ensures Lookup(topics, id).Some? <==> id in Ids(topics)
    ensures Lookup(topics, id).Some? ==> ViewInv(c, Lookup(topics, id).value)
    decreases |topics|
  {
    hide ViewInv;
    if topics != [] { LookupOk(c, topics[1..], id); }
  }

  lemma {:induction false} UpdateOk(c: Config, topics: seq<Slot>, id: Id, t: Topic)
    requires SlotsOk(c, topics) && ViewInv(c, t)
    ensures SlotsOk(c, Update(topics, id, t)) && Ids(Update(topics, id, t)) == Ids(topics)
    decreases |topics|
  {
    hide ViewInv;
    if topics != [] {
      UpdateOk(c, topics[1..], id, t);
      if topics[0].id == id {
        assert Update(topics, id, t)[1..] == topics[1..];
      } else {
        assert Update(topics, id, t)[1..] == Update(topics[1..], id, t);
      }
    }
  }

  lemma {:induction false} DeleteOk(c: Config, topics: seq<Slot>, id: Id)
    requires SlotsOk(c, topics)
    ensures SlotsOk(c, Delete(topics, id))
    ensures forall x :: x in Ids(Delete(topics, id)) <==> x in Ids(topics) && x != id
    decreases |topics|
  {
    hide ViewInv;
    if topics != [] {
      DeleteOk(c, topics[1..], id);
      if topics[0].id != id { assert Delete(topics, id)[1..] == Delete(topics[1..], id); }
    }
  }

  lemma {:induction false} AppendOk(c: Config, topics: seq<Slot>, s: Slot)
    requires SlotsOk(c, topics) && ViewInv(c, s.t) && s.id !in Ids(topics)
    ensures SlotsOk(c, topics + [s]) && Ids(topics + [s]) == Ids(topics) + [s.id]
    decreases |topics|
  {
    hide ViewInv;
    if topics == [] {
      assert topics + [s] == [s] && [s][1..] == [];
    } else {
      AppendOk(c, topics[1..], s);
      assert (topics + [s])[1..] == topics[1..] + [s];
    }
  }

  lemma {:induction false} MoreLive(members: seq<Membership>, live: set<Id>, more: set<Id>)
    requires MembersOk(members, live) && live <= more
    ensures MembersOk(members, more)
    decreases |members|
  {
    if members != [] { MoreLive(members[1..], live, more); }
  }

  // ------------------------------------------------------------- whole handle

  ghost function TopicMoments(c: Config, p: Protocol, id: Id, event: Event, now: int): seq<Moment> {
    var found := Lookup(p.topics, id);
    if found.None? then []
    else MapMoments(p.members, id, Handle(c, found.value.(draws := p.draws), event, now).out)
  }

  ghost function AllMoments(c: Config, p: Protocol, ids: seq<Id>, event: Event, now: int): seq<Moment>
    decreases |ids|
  {
    if ids == [] then []
    else TopicMoments(c, p, ids[0], event, now)
         + AllMoments(c, HandleTopic(c, p, ids[0], event, now).p, ids[1..], event, now)
  }

  /** Removing a topic's memberships, with `done` already gone through. */
  ghost function PurgeMoments(done: seq<Membership>, members: seq<Membership>, topic: Id): seq<Moment>
    decreases |members|
  {
    if members == [] then []
    else
      var left := members[0].topics - {topic};
      if left == {} then
        [Moment(Hangup(members[0].peer), done + members[1..])] + PurgeMoments(done, members[1..], topic)
      else PurgeMoments(done + [Membership(members[0].peer, left)], members[1..], topic)
  }

  /** The outputs of a whole handle, each with the memberships of its moment. */
  ghost function Moments(c: Config, p: Protocol, event: ProtocolEvent, now: int): seq<Moment> {
    match event
    case PeerGone(peer) => AllMoments(c, p, Ids(p.topics), PeerDisconnected(peer), now)
    case NewPeerData(data) => AllMoments(c, p.(peerData := data), Ids(p.topics), UpdatePeerData(data), now)
    case TimerFired(topic, timer) => TopicMoments(c, p, topic, TimerExpired(timer), now)
    case RecvMessage(peer, topic, message) =>
      if Lookup(p.topics, topic).None? then []
      else TopicMoments(c, p.(members := Track(p.members, peer, topic)), topic, Recv(peer, message), now)
    case Command(topic, command) =>
      if command.CommandQuit? then
        TopicMoments(c, p, topic, command, now)
        + PurgeMoments([], HandleTopic(c, p, topic, command, now).p.members, topic)
      else TopicMoments(c, if command.CommandJoin? then Require(p, topic) else p, topic, command, now)
  }

  lemma TopicKeeps(c: Config, t: Topic, draws: nat, event: Event, now: int)
    requires ValidConfig(c) && ViewInv(c, t)
    ensures ViewInv(c, Handle(c, t.(draws := draws), event, now).t)
  {
    hide ViewInv, Dispatch;
    SameInv(c, t, t.(draws := draws));
    if event == CommandQuit {
      QuitEmpty(c, t.(draws := draws), now);
    } else {
      GoodHandle(c, t.(draws := draws), event, now);
    }
  }

  /** After quitting nothing is left in the views, so nothing is out of order. */
  lemma QuitEmpty(c: Config, t: Topic, now: int)
    ensures ViewInv(c, Handle(c, t, CommandQuit, now).t)
  {
    hide Farewells;
  }

  lemma HandleTopicOk(c: Config, p: Protocol, id: Id, event: Event, now: int)
    requires ValidConfig(c) && ProtocolInv(c, p)
    ensures var s := HandleTopic(c, p, id, event, now);
            ProtocolInv(c, s.p) && Ids(s.p.topics) == Ids(p.topics)
            && Outs(TopicMoments(c, p, id, event, now)) == s.out && Unused(TopicMoments(c, p, id, event, now))
  {
    hide ViewInv, Handle, MembersOk, SlotsOk, Update, MapOut, MapMoments, Outs;
    LookupOk(c, p.topics, id);
    var found := Lookup(p.topics, id);
    if found.None? {
      NoOuts();
    } else {
      TopicKeeps(c, found.value, p.draws, event, now);
      var s := Handle(c, found.value.(draws := p.draws), event, now);
      UpdateOk(c, p.topics, id, s.t);
      MapOk(p.members, Live(p), id, s.out);
    }
  }

  lemma {:induction false} HandleAllOk(c: Config, p: Protocol, ids: seq<Id>, event: Event, now: int)
    requires ValidConfig(c) && ProtocolInv(c, p)
    ensures var s := HandleAll(c, p, ids, event, now);
            ProtocolInv(c, s.p) && Ids(s.p.topics) == Ids(p.topics)
            && Outs(AllMoments(c, p, ids, event, now)) == s.out && Unused(AllMoments(c, p, ids, event, now))
    decreases |ids|
  {
    hide ProtocolInv, HandleTopic, TopicMoments, Outs;
    if ids == [] {
      NoOuts();
    } else {
      HandleTopicOk(c, p, ids[0], event, now);
      var s := HandleTopic(c, p, ids[0], event, now);
      HandleAllOk(c, s.p, ids[1..], event, now);
      OutsConcat(TopicMoments(c, p, ids[0], event, now), AllMoments(c, s.p, ids[1..], event, now));
    }
  }

  lemma {:induction false} TopicsConcat(a: seq<Membership>, b: seq<Membership>, live: set<Id>, peer: Id)
    requires MembersOk(a, live)
    ensures TopicsOf(a + b, peer) == if TopicsOf(a, peer) != {} then TopicsOf(a, peer) else TopicsOf(b, peer)
    decreases |a|
  {
    if a == [] {
      assert a + b == b;
    } else {
      assert (a + b)[1..] == a[1..] + b;
      TopicsConcat(a[1..], b, live, peer);
    }
  }

  /** No peer has a membership in both halves. */
  ghost predicate Apart(a: seq<Membership>, b: seq<Membership>) {
    forall peer :: TopicsOf(a, peer) == {} || TopicsOf(b, peer) == {}
  }

  lemma {:induction false} MembersJoin(a: seq<Membership>, b: seq<Membership>, live: set<Id>)
    requires MembersOk(a, live) && MembersOk(b, live) && Apart(a, b)
    ensures MembersOk(a + b, live)
    decreases |a|
  {
    if a == [] {
      assert a + b == b;
    } else {
      assert (a + b)[1..] == a[1..] + b;
      forall peer ensures TopicsOf(a[1..], peer) == {} || TopicsOf(b, peer) == {} {
        assert TopicsOf(a, peer) == {} || TopicsOf(b, peer) == {};
      }
      assert TopicsOf(a, a[0].peer) == a[0].topics;
      MembersJoin(a[1..], b, live);
      TopicsConcat(a[1..], b, live, a[0].peer);
    }
  }

  lemma {:induction false} MembersSplit(a: seq<Membership>, b: seq<Membership>, live: set<Id>)
    requires MembersOk(a + b, live)
    ensures MembersOk(a, live) && MembersOk(b, live) && Apart(a, b)
    decreases |a|
  {
    if a == [] {
      assert a + b == b;
    } else {
      assert (a + b)[1..] == a[1..] + b;
      MembersSplit(a[1..], b, live);
      TopicsConcat(a[1..], b, live, a[0].peer);
      forall peer ensures TopicsOf(a, peer) == {} || TopicsOf(b, peer) == {} {
        assert TopicsOf(a[1..], peer) == {} || TopicsOf(b, peer) == {};
      }
    }
  }

  /** Lets the membership in the middle go, or lets it shrink to `left`. */
  lemma MiddleGone(a: seq<Membership>, members: seq<Membership>, live: set<Id>, left: set<Id>)
    requires members != [] && MembersOk(a + members, live) && left <= members[0].topics
    ensures TopicsOf(a + members[1..], members[0].peer) == {} && MembersOk(a + members[1..], live)
    ensures left != {} ==> MembersOk(a + [Membership(members[0].peer, left)] + members[1..], live)
  {
    var m, rest := members[0], members[1..];
    MembersSplit(a, members, live);
    assert TopicsOf(members, m.peer) != {};
    forall peer ensures TopicsOf(a, peer) == {} || TopicsOf(rest, peer) == {} {
      assert TopicsOf(a, peer) == {} || TopicsOf(members, peer) == {};
    }
    MembersJoin(a, rest, live);
    TopicsConcat(a, rest, live, m.peer);
    if left != {} {
      var shrunk := [Membership(m.peer, left)] + rest;
      assert shrunk[1..] == rest;
      forall peer ensures TopicsOf(a, peer) == {} || TopicsOf(shrunk, peer) == {} {
        assert TopicsOf(a, peer) == {} || TopicsOf(members, peer) == {};
      }
      MembersJoin(a, shrunk, live);
      assert a + [Membership(m.peer, left)] + rest == a + shrunk;
    }
  }

  lemma {:induction false} PurgeMomentsOk(done: seq<Membership>, members: seq<Membership>, live: set<Id>, topic: Id)
    requires MembersOk(done + members, live)
    ensures Outs(PurgeMoments(done, members, topic)) == Purge(members, topic).out
    ensures Unused(PurgeMoments(done, members, topic))
    decreases |members|
  {
    hide MembersOk, TopicsOf;
    if members != [] {
      var m, rest := members[0], members[1..];
      MiddleGone(done, members, live, m.topics - {topic});
      if m.topics - {topic} == {} {
        PurgeMomentsOk(done, rest, live, topic);
        var more := PurgeMoments(done, rest, topic);
        assert ([Moment(Hangup(m.peer), done + rest)] + more)[1..] == more;
      } else {
        PurgeMomentsOk(done + [Membership(m.peer, m.topics - {topic})], rest, live, topic);
      }
    }
  }

  lemma RequireOk(c: Config, p: Protocol, id: Id)
    requires ProtocolInv(c, p)
    ensures ProtocolInv(c, Require(p, id))
  {
    hide MembersOk, SlotsOk, Lookup, Ids;
    LookupOk(c, p.topics, id);
    if Lookup(p.topics, id).None? {
      AppendOk(c, p.topics, Slot(id, NewTopic(p.peerData)));
      MoreLive(p.members, Live(p), Live(Require(p, id)));
    }
  }

  lemma QuitOk(c: Config, p: Protocol, topic: Id, now: int)
    requires ValidConfig(c) && ProtocolInv(c, p)
    ensures ProtocolInv(c, Quit(c, p, topic, now).p)
    ensures Outs(Moments(c, p, Command(topic, CommandQuit), now)) == Quit(c, p, topic, now).out
    ensures Unused(Moments(c, p, Command(topic, CommandQuit), now))
  {
    hide MembersOk, SlotsOk, HandleTopic, TopicMoments, Delete, Purge, PurgeMoments, Outs, Ids;
    HandleTopicOk(c, p, topic, CommandQuit, now);
    var s := HandleTopic(c, p, topic, CommandQuit, now);
    DeleteOk(c, s.p.topics, topic);
    PurgeOk(s.p.members, Live(s.p), topic);
    assert Members(Ids(Delete(s.p.topics, topic))) == Live(s.p) - {topic};
    assert [] + s.p.members == s.p.members;
    PurgeMomentsOk([], s.p.members, Live(s.p), topic);
    OutsConcat(TopicMoments(c, p, topic, CommandQuit, now), PurgeMoments([], s.p.members, topic));
  }

  /** Every handle keeps topics and memberships in order, and hangs up on a
      peer only at a moment when it is used for no topic. */
  lemma HandleOk(c: Config, p: Protocol, event: ProtocolEvent, now: int)
    requires ValidConfig(c) && ProtocolInv(c, p)
    ensures ProtocolInv(c, HandleProtocol(c, p, event, now).p)
    ensures Outs(Moments(c, p, event, now)) == HandleProtocol(c, p, event, now).out
    ensures Unused(Moments(c, p, event, now))
  {
    hide MembersOk, SlotsOk, HandleTopic, HandleAll, TopicMoments, AllMoments, Quit, Require, PurgeMoments, Outs, Ids,
      Drop, Track;
    match event
    case PeerGone(peer) =>
      HandleAllOk(c, p, Ids(p.topics), PeerDisconnected(peer), now);
      var s := HandleAll(c, p, Ids(p.topics), PeerDisconnected(peer), now);
      DropOk(s.p.members, Live(s.p), peer);
    case NewPeerData(data) => HandleAllOk(c, p.(peerData := data), Ids(p.topics), UpdatePeerData(data), now);
    case TimerFired(topic, timer) => HandleTopicOk(c, p, topic, TimerExpired(timer), now);
    case RecvMessage(peer, topic, message) =>
      LookupOk(c, p.topics, topic);
      if Lookup(p.topics, topic).Some? {
        TrackOk(p.members, Live(p), peer, topic);
        HandleTopicOk(c, p.(members := Track(p.members, peer, topic)), topic, Recv(peer, message), now);
      } else {
        NoOuts();
      }
    case Command(topic, command) =>
      if command.CommandQuit? {
        QuitOk(c, p, topic, now);
      } else {
        RequireOk(c, p, topic);
        HandleTopicOk(c, if command.CommandJoin? then Require(p, topic) else p, topic, command, now);
      }
  }

  // -------------------------------------------------------------------- runs

  datatype ProtocolInput = ProtocolInput(event: ProtocolEvent, now: int)

  ghost function NewProtocol(data: Option<Bytes>): Protocol {
    Protocol([], [], data, 0)
  }

  ghost function RunProtocol(c: Config, p: Protocol, inputs: seq<ProtocolInput>): Protocol
    decreases |inputs|
  {
    if inputs == [] then p
    else RunProtocol(c, HandleProtocol(c, p, inputs[0].event, inputs[0].now).p, inputs[1..])
  }

  lemma {:induction false} RunProtocolOk(c: Config, p: Protocol, inputs: seq<ProtocolInput>)
    requires ValidConfig(c) && ProtocolInv(c, p)
    ensures ProtocolInv(c, RunProtocol(c, p, inputs))
    decreases |inputs|
  {
    hide ProtocolInv, HandleProtocol;
    if inputs != [] {
      HandleOk(c, p, inputs[0].event, inputs[0].now);
      RunProtocolOk(c, HandleProtocol(c, p, inputs[0].event, inputs[0].now).p, inputs[1..]);
    }
  }

  lemma NewOk(c: Config, data: Option<Bytes>)
    ensures ProtocolInv(c, NewProtocol(data))
  {
  }

  /** In every reachable state each membership is non-empty and names live
      topics only, and whatever comes next, a hang-up happens only at a moment
      when its peer is used for no topic. */
  lemma RunMembers(c: Config, data: Option<Bytes>, inputs: seq<ProtocolInput>, event: ProtocolEvent, now: int)
    requires ValidConfig(c)
    ensures var p := RunProtocol(c, NewProtocol(data), inputs);
            && MembersOk(p.members, Members(Ids(p.topics)))
            && Outs(Moments(c, p, event, now)) == HandleProtocol(c, p, event, now).out
            && Unused(Moments(c, p, event, now))
  {
    hide RunProtocol, HandleProtocol, Moments, Outs, Unused;
    RunProtocolOk(c, NewProtocol(data), inputs);
    HandleOk(c, RunProtocol(c, NewProtocol(data), inputs), event, now);
  }

  /** The neighbours of a topic, if it lives. */
  ghost function NeighborsOf(p: Protocol, topic: Id): seq<Id> {
    var found := Lookup(p.topics, topic);
    if found.None? then [] else found.value.neighbors
  }

  lemma QuitCounts(c: Config, p: Protocol, topic: Id, now: int, peer: Id)
    requires ValidConfig(c) && ProtocolInv(c, p)
    ensures Hangups(Quit(c, p, topic, now).out, peer) ==
            if TopicsOf(p.members, peer) - {topic} == {}
               && (topic in TopicsOf(p.members, peer) || peer in NeighborsOf(p, topic)) then 1 else 0
    ensures TopicsOf(Quit(c, p, topic, now).p.members, peer) == TopicsOf(p.members, peer) - {topic}
  {
    hide MembersOk, SlotsOk, Handle, MapOut, Purge, Update, Delete, TopicsOf, Hangups, Ids;
    LookupOk(c, p.topics, topic);
    HandleTopicOk(c, p, topic, CommandQuit, now);
    var s := HandleTopic(c, p, topic, CommandQuit, now);
    PurgeTopics(s.p.members, Live(s.p), topic, peer);
    HangupsConcat(s.out, Purge(s.p.members, topic).out, peer);
    var found := Lookup(p.topics, topic);
    if found.Some? {
      QuitMaps(c, found.value.(draws := p.draws), now, p.members, Live(p), topic, peer);
    } else {
      NoHangups(peer);
      TopicsLive(p.members, Live(p), peer);
    }
  }

  lemma NoHangups(peer: Id)
    ensures Hangups([], peer) == 0
  {
  }

  lemma {:induction false} TopicsLive(members: seq<Membership>, live: set<Id>, peer: Id)
    requires MembersOk(members, live)
    ensures TopicsOf(members, peer) <= live
    decreases |members|
  {
    if members != [] { TopicsLive(members[1..], live, peer); }
  }

  /** In every reachable state, quitting a topic hangs up exactly once on each
      peer used for that topic alone (or a neighbour not used for any other),
      and never on a peer that shares another topic. */
  lemma RunQuit(c: Config, data: Option<Bytes>, inputs: seq<ProtocolInput>, topic: Id, now: int, peer: Id)
    requires ValidConfig(c)
    ensures var p := RunProtocol(c, NewProtocol(data), inputs);
            var s := HandleProtocol(c, p, Command(topic, CommandQuit), now);
            var used := TopicsOf(p.members, peer);
            && (used == {topic} ==> Hangups(s.out, peer) == 1)
            && (used - {topic} != {} ==> Hangups(s.out, peer) == 0)
            && (used == {} ==> Hangups(s.out, peer) == if peer in NeighborsOf(p, topic) then 1 else 0)
            && TopicsOf(s.p.members, peer) == used - {topic}
            && topic !in Ids(s.p.topics)
  {
    hide RunProtocol, ProtocolInv, TopicsOf, Hangups, HandleTopic, Purge, NeighborsOf;
    NewOk(c, data);
    RunProtocolOk(c, NewProtocol(data), inputs);
    var p := RunProtocol(c, NewProtocol(data), inputs);
    QuitCounts(c, p, topic, now, peer);
    var used := TopicsOf(p.members, peer);
    assert used - {topic} == {} && used != {} ==> topic in used;
    QuitGone(c, p, topic, now);
  }

  lemma QuitGone(c: Config, p: Protocol, topic: Id, now: int)
    requires ValidConfig(c) && ProtocolInv(c, p)
    ensures topic !in Ids(Quit(c, p, topic, now).p.topics)
  {
    hide MembersOk, SlotsOk, HandleTopic, Purge;
    HandleTopicOk(c, p, topic, CommandQuit, now);
    DeleteOk(c, HandleTopic(c, p, topic, CommandQuit, now).p.topics, topic);
  }
}
