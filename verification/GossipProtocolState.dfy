/** The protocol layer as the program keeps it: an object that owns the topic
    objects, proved to take the steps that GossipProtocol specifies. */
module GossipProtocolState {
  import opened Bytes
  import opened GossipTypes
  import opened GossipTopic
  import opened GossipProtocol
  import opened GossipState
  import Spec = GossipProtocol

  lemma {:induction false} LookupAt(topics: seq<Slot>, id: Id, i: nat)
    requires i < |topics| && topics[i].id == id && forall j :: 0 <= j < i ==> topics[j].id != id
    ensures Lookup(topics, id) == Some(topics[i].t)
    decreases |topics|
  {
    if topics[0].id != id { LookupAt(topics[1..], id, i - 1); }
  }

  lemma {:induction false} UpdateAt(topics: seq<Slot>, id: Id, i: nat, t: Topic)
    requires i < |topics| && topics[i].id == id && forall j :: 0 <= j < i ==> topics[j].id != id
    ensures Update(topics, id, t) == topics[i := Slot(id, t)]
    decreases |topics|
  {
    if topics[0].id == id {
      assert topics[0 := Slot(id, t)] == [Slot(id, t)] + topics[1..];
    } else {
      UpdateAt(topics[1..], id, i - 1, t);
      assert topics[i := Slot(id, t)] == [topics[0]] + topics[1..][i - 1 := Slot(id, t)];
    }
  }

  lemma {:induction false} LookupNone(topics: seq<Slot>, id: Id)
    requires forall j :: 0 <= j < |topics| ==> topics[j].id != id
    ensures Lookup(topics, id) == None && Delete(topics, id) == topics
    decreases |topics|
  {
    if topics != [] { LookupNone(topics[1..], id); }
  }

  lemma {:induction false} DeleteAt(topics: seq<Slot>, id: Id, i: nat)
    requires i < |topics| && topics[i].id == id
    requires forall j :: 0 <= j < |topics| && j != i ==> topics[j].id != id
    ensures Delete(topics, id) == Cut(topics, i)
    decreases |topics|
  {
    if i == 0 {
      LookupNone(topics[1..], id);
    } else {
      DeleteAt(topics[1..], id, i - 1);
      assert topics[..i] + topics[i + 1..] == [topics[0]] + (topics[1..][..i - 1] + topics[1..][i..]);
    }
  }

  lemma {:induction false} IdsAt(topics: seq<Slot>, names: seq<Id>)
    requires |names| == |topics| && forall i :: 0 <= i < |names| ==> topics[i].id == names[i]
    ensures Ids(topics) == names
    decreases |topics|
  {
    if topics != [] { IdsAt(topics[1..], names[1..]); }
  }

  ghost function SlotsOf(names: seq<Id>, states: seq<TopicState>): (slots: seq<Slot>)
    requires |names| == |states|
    reads states
    ensures |slots| == |names|
    ensures forall i :: 0 <= i < |names| ==> slots[i] == Slot(names[i], states[i].Model())
  {
    seq(|names|, i requires 0 <= i < |names| reads states => Slot(names[i], states[i].Model()))
  }

  function Cut<T>(s: seq<T>, i: nat): (r: seq<T>)
    requires i < |s|
    ensures |r| == |s| - 1 && forall j :: 0 <= j < |r| ==> r[j] == s[if j < i then j else j + 1]
  {
    s[..i] + s[i + 1..]
  }

  class ProtocolState {
    const c: Config
    var peerData: Option<Bytes>
    var names: seq<Id>
    var states: seq<TopicState>
    var members: seq<Membership>
    var draws: nat

    ghost predicate Valid()
      reads `names, `states, states
    {
      && |names| == |states|
      && (forall i :: 0 <= i < |states| ==> states[i].c == c)
      && (forall i, j :: 0 <= i < j < |states| ==> states[i] != states[j])
      && (forall i, j :: 0 <= i < j < |names| ==> names[i] != names[j])
    }

    ghost function Slots(): (slots: seq<Slot>)
      requires Valid()
      reads `names, `states, states
    {
      SlotsOf(names, states)
    }

    ghost function Model(): Protocol
      requires Valid()
      reads this, states
    {
      Protocol(Slots(), members, peerData, draws)
    }

    constructor (config: Config, data: Option<Bytes>)
      ensures Valid() && c == config && Model() == Protocol([], [], data, 0)
    {
      c := config;
      peerData, names, states, members, draws := data, [], [], [], 0;
    }

    /** The position of a topic, or `|names|`. */
    method Find(id: Id) returns (i: nat)
      requires Valid()
      ensures i <= |names| && (i < |names| ==> names[i] == id)
      ensures forall j :: 0 <= j < i ==> names[j] != id
      ensures Lookup(Slots(), id) == if i < |names| then Some(states[i].Model()) else None
    {
      i := 0;
      while i < |names| && names[i] != id
        invariant i <= |names|
        invariant forall j :: 0 <= j < i ==> names[j] != id
      {
        i := i + 1;
      }
      if i < |names| { LookupAt(Slots(), id, i); } else { LookupNone(Slots(), id); }
    }

    method MapTopicOut(topic: Id, events: seq<Out>) returns (out: seq<ProtocolOut>)
      modifies `members
      ensures Mapped(members, out) == MapOut(old(members), topic, events)
    {
      hide MapOne;
      out := [];
      ghost var whole := MapOut(members, topic, events);
      assert events[0..] == events;
      for i := 0 to |events|
        invariant var rest := MapOut(members, topic, events[i..]);
                  whole == Mapped(rest.members, out + rest.out)
      {
        assert events[i..][1..] == events[i + 1..];
        ghost var before := out;
        ghost var rest := MapOut(members, topic, events[i..]);
        var more := MapEvent(topic, events[i]);
        out := out + more;
        assert before + rest.out == out + MapOut(members, topic, events[i + 1..]).out;
      }
    }

    method MapEvent(topic: Id, event: Out) returns (out: seq<ProtocolOut>)
      modifies `members
      ensures Mapped(members, out) == MapOne(old(members), topic, event)
    {
      match event
      case Send(peer, message) =>
        members := Track(members, peer, topic);
        out := [SendTo(peer, topic, message)];
      case Emit(e) => out := [EmitFor(topic, e)];
      case Schedule(delay, timer) => out := [ScheduleFor(delay, topic, timer)];
      case DisconnectPeer(peer) =>
        out := if LastTopic(members, peer, topic) then [Hangup(peer)] else [];
        members := Untrack(members, peer, topic);
      case PeerData(peer, data) => out := [DataOf(peer, data)];
    }

    /** One topic takes a step with the shared random source. */
    method StepTopic(i: nat, event: Event, now: int) returns (events: seq<Out>)
      requires Valid() && i < |names|
      modifies `draws, states
      ensures Valid()
      ensures var s := GossipTopic.Handle(c, old(Slots())[i].t.(draws := old(draws)), event, now);
              Slots() == old(Slots())[i := Slot(names[i], s.t)] && events == s.out && draws == s.t.draws
    {
      hide GossipTopic.Handle, SlotsOf;
      states[i].draws := draws;
      events := states[i].Handle(event, now);
      draws := states[i].draws;
    }

    method HandleTopicEvent(id: Id, event: Event, now: int) returns (out: seq<ProtocolOut>)
      requires Valid()
      modifies this, states
      ensures Valid() && names == old(names) && states == old(states)
      ensures ProtocolStep(Model(), out) == Spec.HandleTopic(c, old(Model()), id, event, now)
    {
      hide MapOut, Lookup, Update, GossipTopic.Handle, SlotsOf;
      var i := Find(id);
      if i == |names| {
        return [];
      }
      ghost var slots := Slots();
      var events := StepTopic(i, event, now);
      UpdateAt(slots, id, i, Slots()[i].t);
      out := MapTopicOut(id, events);
    }

    method HandleAllTopics(event: Event, now: int) returns (out: seq<ProtocolOut>)
      requires Valid()
      modifies this, states
      ensures Valid() && names == old(names) && states == old(states)
      ensures ProtocolStep(Model(), out) == HandleAll(c, old(Model()), Ids(old(Model()).topics), event, now)
    {
      hide HandleAll, Spec.HandleTopic, SlotsOf;
      IdsAt(Slots(), names);
      out := [];
      ghost var whole := HandleAll(c, Model(), names, event, now);
      assert names[0..] == names;
      for i := 0 to |names|
        invariant Valid() && names == old(names) && states == old(states)
        invariant Sweeping(c, whole, Model(), names[i..], event, now, out)
      {
        SweepNext(c, whole, Model(), names[i..], event, now, out);
        assert names[i..][1..] == names[i + 1..];
        var more := HandleTopicEvent(names[i], event, now);
        out := out + more;
      }
      SweepEnd(c, whole, Model(), names[|names|..], event, now, out);
    }

    method RequireTopic(id: Id)
      requires Valid()
      modifies this
      ensures Valid() && Model() == Require(old(Model()), id)
      ensures forall s :: s in states ==> s in old(states) || fresh(s)
    {
      hide Lookup, SlotsOf;
      var i := Find(id);
      if i == |names| {
        var topic := new TopicState(c, peerData);
        ghost var slots := Slots();
        names := names + [id];
        states := states + [topic];
        assert Slots() == slots + [Slot(id, NewTopic(peerData))];
      }
    }

    method RemoveTopicMemberships(topic: Id) returns (out: seq<ProtocolOut>)
      modifies `members
      ensures Mapped(members, out) == Purge(old(members), topic)
    {
      hide Purge;
      out := [];
      var kept: seq<Membership> := [];
      var all := members;
      ghost var whole := Purge(all, topic);
      assert all[0..] == all;
      for i := 0 to |all|
        invariant Purging(whole, all[i..], topic, kept, out)
      {
        PurgeNext(whole, all[i..], topic, kept, out);
        assert all[i..][1..] == all[i + 1..];
        var left := all[i].topics - {topic};
        if left != {} {
          kept := kept + [Membership(all[i].peer, left)];
        } else {
          out := out + [Hangup(all[i].peer)];
        }
      }
      PurgeEnd(whole, all[|all|..], topic, kept, out);
      members := kept;
    }

    method DeleteTopic(id: Id)
      requires Valid()
      modifies `names, `states
      ensures Valid() && Model() == old(Model()).(topics := Delete(old(Model()).topics, id))
      ensures forall s :: s in states ==> s in old(states)
    {
      hide Delete, Lookup, Cut, SlotsOf;
      var i := Find(id);
      ghost var slots := Slots();
      if i < |names| {
        DeleteAt(slots, id, i);
        names := Cut(names, i);
        states := Cut(states, i);
        assert Slots() == Cut(slots, i);
      } else {
        LookupNone(slots, id);
      }
    }

    method QuitTopic(topic: Id, now: int) returns (out: seq<ProtocolOut>)
      requires Valid()
      modifies this, states
      ensures Valid() && ProtocolStep(Model(), out) == Quit(c, old(Model()), topic, now)
      ensures forall s :: s in states ==> s in old(states)
    {
      hide Spec.HandleTopic, Delete, Purge;
      out := HandleTopicEvent(topic, CommandQuit, now);
      DeleteTopic(topic);
      var hangups := RemoveTopicMemberships(topic);
      out := out + hangups;
    }

    /** Takes one event to the next state and the events to emit. */
    method Handle(event: ProtocolEvent, now: int) returns (out: seq<ProtocolOut>)
      requires Valid()
      modifies this, states
      ensures Valid() && ProtocolStep(Model(), out) == HandleProtocol(c, old(Model()), event, now)
      ensures forall s :: s in states ==> s in old(states) || fresh(s)
    {
      hide Spec.HandleTopic, HandleAll, Quit, Require, Track, Drop, Lookup, Ids;
      match event
      case PeerGone(peer) =>
        out := HandleAllTopics(PeerDisconnected(peer), now);
        members := Drop(members, peer);
      case NewPeerData(data) =>
        peerData := data;
        out := HandleAllTopics(UpdatePeerData(data), now);
      case TimerFired(topic, timer) => out := HandleTopicEvent(topic, TimerExpired(timer), now);
      case RecvMessage(peer, topic, message) =>
        var i := Find(topic);
        if i == |names| {
          return [];
        }
        members := Track(members, peer, topic);
        out := HandleTopicEvent(topic, Recv(peer, message), now);
      case Command(topic, command) =>
        if command.CommandQuit? {
          out := QuitTopic(topic, now);
        } else {
          if command.CommandJoin? {
            RequireTopic(topic);
            assert forall i :: 0 <= i < |states| ==> states[i] in old(states) || fresh(states[i]);
          }
          out := HandleTopicEvent(topic, command, now);
        }
    }
  }

  // The loops: what is done so far and what is still to do make up the whole.

  ghost predicate Sweeping(
      c: Config, whole: ProtocolStep, p: Protocol, ids: seq<Id>, event: Event, now: int, out: seq<ProtocolOut>)
  {
    var rest := HandleAll(c, p, ids, event, now);
    whole == ProtocolStep(rest.p, out + rest.out)
  }

  lemma SweepNext(
      c: Config, whole: ProtocolStep, p: Protocol, ids: seq<Id>, event: Event, now: int, out: seq<ProtocolOut>)
    requires Sweeping(c, whole, p, ids, event, now, out) && ids != []
    ensures var s := Spec.HandleTopic(c, p, ids[0], event, now);
            Sweeping(c, whole, s.p, ids[1..], event, now, out + s.out)
  {
    hide Spec.HandleTopic;
    var s := Spec.HandleTopic(c, p, ids[0], event, now);
    var rest := HandleAll(c, s.p, ids[1..], event, now);
    assert out + (s.out + rest.out) == out + s.out + rest.out;
  }

  lemma SweepEnd(
      c: Config, whole: ProtocolStep, p: Protocol, ids: seq<Id>, event: Event, now: int, out: seq<ProtocolOut>)
    requires Sweeping(c, whole, p, ids, event, now, out) && ids == []
    ensures whole == ProtocolStep(p, out)
  {
  }

  ghost predicate Purging(
      whole: Mapped, members: seq<Membership>, topic: Id, kept: seq<Membership>, out: seq<ProtocolOut>)
  {
    var rest := Purge(members, topic);
    whole == Mapped(kept + rest.members, out + rest.out)
  }

  lemma PurgeNext(whole: Mapped, members: seq<Membership>, topic: Id, kept: seq<Membership>, out: seq<ProtocolOut>)
    requires Purging(whole, members, topic, kept, out) && members != []
    ensures var left := members[0].topics - {topic};
            if left == {} then Purging(whole, members[1..], topic, kept, out + [Hangup(members[0].peer)])
            else Purging(whole, members[1..], topic, kept + [Membership(members[0].peer, left)], out)
  {
    var rest := Purge(members[1..], topic);
    var left := members[0].topics - {topic};
    assert kept + ([Membership(members[0].peer, left)] + rest.members)
           == kept + [Membership(members[0].peer, left)] + rest.members;
    assert out + ([Hangup(members[0].peer)] + rest.out) == out + [Hangup(members[0].peer)] + rest.out;
  }

  lemma PurgeEnd(whole: Mapped, members: seq<Membership>, topic: Id, kept: seq<Membership>, out: seq<ProtocolOut>)
    requires Purging(whole, members, topic, kept, out) && members == []
    ensures whole == Mapped(kept, out)
  {
  }
}
