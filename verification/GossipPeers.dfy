/** Memberships over every run of the protocol: they are never empty, name live
    topics only, and a peer is hung up on exactly when its last topic goes. */
module GossipPeers {
  import opened GossipTypes
  import opened GossipTopic
  import opened GossipProtocol

  /** The topics a peer is used for. */
  ghost function TopicsOf(members: seq<Membership>, peer: Id): set<Id> {
    if members == [] then {}
    else if members[0].peer == peer then members[0].topics else TopicsOf(members[1..], peer)
  }

  /** One non-empty membership for each peer, naming topics in `live` only. */
  ghost predicate MembersOk(members: seq<Membership>, live: set<Id>) {
    members == [] ||
    (&& members[0].topics != {} && members[0].topics <= live
     && TopicsOf(members[1..], members[0].peer) == {}
     && MembersOk(members[1..], live))
  }

  lemma {:induction false} TrackOk(members: seq<Membership>, live: set<Id>, peer: Id, topic: Id)
    requires MembersOk(members, live) && topic in live
    ensures MembersOk(Track(members, peer, topic), live)
    decreases |members|
  {
    if members == [] {
      assert [Membership(peer, {topic})][1..] == [];
    } else if members[0].peer == peer {
      assert Track(members, peer, topic)[1..] == members[1..];
    } else {
      TrackOk(members[1..], live, peer, topic);
      TrackTopics(members[1..], peer, topic, members[0].peer);
      assert Track(members, peer, topic)[1..] == Track(members[1..], peer, topic);
    }
  }

  lemma {:induction false} TrackTopics(members: seq<Membership>, peer: Id, topic: Id, other: Id)
    ensures TopicsOf(Track(members, peer, topic), other) ==
            if other == peer then TopicsOf(members, other) + {topic} else TopicsOf(members, other)
    decreases |members|
  {
    if members == [] {
      assert [Membership(peer, {topic})][1..] == [];
    } else {
      if members[0].peer == peer {
        assert Track(members, peer, topic)[1..] == members[1..];
      } else {
        TrackTopics(members[1..], peer, topic, other);
        assert Track(members, peer, topic)[1..] == Track(members[1..], peer, topic);
      }
    }
  }

  lemma {:induction false} UntrackTopics(members: seq<Membership>, live: set<Id>, peer: Id, topic: Id, other: Id)
    requires MembersOk(members, live)
    ensures TopicsOf(Untrack(members, peer, topic), other) ==
            if other == peer then TopicsOf(members, other) - {topic} else TopicsOf(members, other)
    ensures LastTopic(members, peer, topic) <==>
            TopicsOf(members, peer) != {} && TopicsOf(members, peer) - {topic} == {}
    decreases |members|
  {
    if members != [] {
      UntrackTopics(members[1..], live, peer, topic, other);
      if members[0].peer == peer {
        var left := members[0].topics - {topic};
        if left != {} { assert Untrack(members, peer, topic)[1..] == members[1..]; }
      } else {
        assert Untrack(members, peer, topic)[1..] == Untrack(members[1..], peer, topic);
      }
    }
  }

  lemma {:induction false} UntrackOk(members: seq<Membership>, live: set<Id>, peer: Id, topic: Id)
    requires MembersOk(members, live)
    ensures MembersOk(Untrack(members, peer, topic), live)
    decreases |members|
  {
    if members != [] {
      if members[0].peer == peer {
        if members[0].topics - {topic} != {} { assert Untrack(members, peer, topic)[1..] == members[1..]; }
      } else {
        UntrackOk(members[1..], live, peer, topic);
        UntrackTopics(members[1..], live, peer, topic, members[0].peer);
        assert Untrack(members, peer, topic)[1..] == Untrack(members[1..], peer, topic);
      }
    }
  }

  lemma {:induction false} DropTopics(members: seq<Membership>, peer: Id, other: Id)
    ensures TopicsOf(Drop(members, peer), other) == if other == peer then {} else TopicsOf(members, other)
    decreases |members|
  {
    if members != [] {
      DropTopics(members[1..], peer, other);
      if members[0].peer != peer { assert Drop(members, peer)[1..] == Drop(members[1..], peer); }
    }
  }

  lemma {:induction false} DropOk(members: seq<Membership>, live: set<Id>, peer: Id)
    requires MembersOk(members, live)
    ensures MembersOk(Drop(members, peer), live)
    decreases |members|
  {
    if members != [] {
      DropOk(members[1..], live, peer);
      DropTopics(members[1..], peer, members[0].peer);
      if members[0].peer != peer { assert Drop(members, peer)[1..] == Drop(members[1..], peer); }
    }
  }

  lemma {:induction false} PurgeTopics(members: seq<Membership>, live: set<Id>, topic: Id, peer: Id)
    requires MembersOk(members, live)
    ensures TopicsOf(Purge(members, topic).members, peer) == TopicsOf(members, peer) - {topic}
    ensures Hangups(Purge(members, topic).out, peer) ==
            if TopicsOf(members, peer) != {} && TopicsOf(members, peer) - {topic} == {} then 1 else 0
    decreases |members|
  {
    if members != [] {
      PurgeTopics(members[1..], live, topic, peer);
      var rest := Purge(members[1..], topic);
      var all := Purge(members, topic);
      if members[0].topics - {topic} == {} {
        assert all.out[1..] == rest.out;
      } else {
        assert all.members[1..] == rest.members;
      }
    }
  }

  lemma {:induction false} PurgeOk(members: seq<Membership>, live: set<Id>, topic: Id)
    requires MembersOk(members, live)
    ensures MembersOk(Purge(members, topic).members, live - {topic})
    decreases |members|
  {
    if members != [] {
      PurgeOk(members[1..], live, topic);
      PurgeTopics(members[1..], live, topic, members[0].peer);
      if members[0].topics - {topic} != {} {
        assert Purge(members, topic).members[1..] == Purge(members[1..], topic).members;
      }
    }
  }

  /** How often a peer is hung up on. */
  ghost function Hangups(out: seq<ProtocolOut>, peer: Id): nat {
    if out == [] then 0 else (if out[0] == Hangup(peer) then 1 else 0) + Hangups(out[1..], peer)
  }

  lemma {:induction false} HangupsConcat(a: seq<ProtocolOut>, b: seq<ProtocolOut>, peer: Id)
    ensures Hangups(a + b, peer) == Hangups(a, peer) + Hangups(b, peer)
    decreases |a|
  {
    if a == [] {
      assert a + b == b;
    } else {
      assert (a + b)[1..] == a[1..] + b;
      HangupsConcat(a[1..], b, peer);
    }
  }

  // ------------------------------------------------------- mapping of outputs

  /** An output and the memberships at the moment it is emitted. */
  datatype Moment = Moment(out: ProtocolOut, members: seq<Membership>)

  ghost function Outs(moments: seq<Moment>): seq<ProtocolOut> {
    if moments == [] then [] else [moments[0].out] + Outs(moments[1..])
  }

  /** No hang-up on a peer that is still used for some topic. */
  ghost predicate Unused(moments: seq<Moment>) {
    forall m :: m in moments && m.out.Hangup? ==> TopicsOf(m.members, m.out.peer) == {}
  }

  ghost function Stamp(out: seq<ProtocolOut>, members: seq<Membership>): seq<Moment> {
    if out == [] then [] else [Moment(out[0], members)] + Stamp(out[1..], members)
  }

  ghost function MapMoments(members: seq<Membership>, topic: Id, out: seq<Out>): seq<Moment>
    decreases |out|
  {
    if out == [] then []
    else
      var first := MapOne(members, topic, out[0]);
      Stamp(first.out, first.members) + MapMoments(first.members, topic, out[1..])
  }

  lemma {:induction false} OutsConcat(a: seq<Moment>, b: seq<Moment>)
    ensures Outs(a + b) == Outs(a) + Outs(b)
    decreases |a|
  {
    if a == [] {
      assert a + b == b;
    } else {
      assert (a + b)[1..] == a[1..] + b;
      OutsConcat(a[1..], b);
    }
  }

  lemma StampOne(m: Mapped)
    requires |m.out| <= 1
    ensures Outs(Stamp(m.out, m.members)) == m.out
    ensures forall x :: x in Stamp(m.out, m.members) ==> x.out in m.out && x.members == m.members
  {
    if m.out != [] {
      assert m.out == [m.out[0]] && m.out[1..] == [];
      assert Stamp(m.out, m.members) == [Moment(m.out[0], m.members)];
      assert Stamp(m.out, m.members)[1..] == [];
    }
  }

  lemma MapOneOk(members: seq<Membership>, live: set<Id>, topic: Id, o: Out)
    requires MembersOk(members, live) && topic in live
    ensures MembersOk(MapOne(members, topic, o).members, live)
    ensures |MapOne(members, topic, o).out| <= 1
    ensures forall x :: x in MapOne(members, topic, o).out && x.Hangup? ==>
              TopicsOf(MapOne(members, topic, o).members, x.peer) == {}
  {
    hide MembersOk, Track, Untrack, LastTopic, TopicsOf;
    if o.Send? { TrackOk(members, live, o.peer, topic); }
    if o.DisconnectPeer? {
      UntrackOk(members, live, o.peer, topic);
      UntrackTopics(members, live, o.peer, topic, o.peer);
    }
  }

  lemma {:induction false} MapOk(members: seq<Membership>, live: set<Id>, topic: Id, out: seq<Out>)
    requires MembersOk(members, live) && topic in live
    ensures MembersOk(MapOut(members, topic, out).members, live)
    ensures Outs(MapMoments(members, topic, out)) == MapOut(members, topic, out).out
    ensures Unused(MapMoments(members, topic, out))
    decreases |out|
  {
    hide MembersOk, MapOne, TopicsOf, Stamp, Outs;
    if out == [] {
      assert Outs([]) == [] by { NoOuts(); }
    } else {
      var first := MapOne(members, topic, out[0]);
      MapOneOk(members, live, topic, out[0]);
      StampOne(first);
      MapOk(first.members, live, topic, out[1..]);
      OutsConcat(Stamp(first.out, first.members), MapMoments(first.members, topic, out[1..]));
    }
  }

  lemma NoOuts()
    ensures Outs([]) == []
  {
  }

  lemma {:induction false} MapConcat(members: seq<Membership>, topic: Id, a: seq<Out>, b: seq<Out>)
    ensures MapOut(members, topic, a + b) ==
            var first := MapOut(members, topic, a);
            var rest := MapOut(first.members, topic, b);
            Mapped(rest.members, first.out + rest.out)
    decreases |a|
  {
    hide MapOne;
    if a == [] {
      assert a + b == b;
    } else {
      assert (a + b)[1..] == a[1..] + b;
      var one := MapOne(members, topic, a[0]);
      MapConcat(one.members, topic, a[1..], b);
    }
  }

  // ------------------------------------------------------------ a topic quits

  /** A farewell is two messages and a hang-up request: it takes the topic off
      the peer, and hangs up if that was all. */
  lemma FarewellMaps(members: seq<Membership>, live: set<Id>, topic: Id, peer: Id, m1: Message, m2: Message, other: Id)
    requires MembersOk(members, live) && topic in live
    ensures var m := MapOut(members, topic, [Send(peer, m1), Send(peer, m2), DisconnectPeer(peer)]);
            && MembersOk(m.members, live)
            && TopicsOf(m.members, other) == (if other == peer then TopicsOf(members, other) - {topic}
                                              else TopicsOf(members, other))
            && Hangups(m.out, other) == if other == peer && TopicsOf(members, other) - {topic} == {} then 1 else 0
  {
    hide MembersOk, Track, Untrack, LastTopic, TopicsOf;
    var out := [Send(peer, m1), Send(peer, m2), DisconnectPeer(peer)];
    var one := Track(members, peer, topic);
    TrackOk(members, live, peer, topic);
    TrackTopics(members, peer, topic, other);
    TrackTopics(members, peer, topic, peer);
    var two := Track(one, peer, topic);
    TrackOk(one, live, peer, topic);
    TrackTopics(one, peer, topic, other);
    TrackTopics(one, peer, topic, peer);
    UntrackOk(two, live, peer, topic);
    UntrackTopics(two, live, peer, topic, other);
    assert out[1..] == [Send(peer, m2), DisconnectPeer(peer)];
    assert out[1..][1..] == [DisconnectPeer(peer)] && [DisconnectPeer(peer)][1..] == [];
    assert LastTopic(two, peer, topic) <==> TopicsOf(members, peer) - {topic} == {};
    var bye := MapOne(two, topic, DisconnectPeer(peer));
    assert MapOut(two, topic, [DisconnectPeer(peer)]) == Mapped(bye.members, bye.out + []);
    assert MapOut(one, topic, out[1..]) == Mapped(bye.members, [SendTo(peer, topic, m2)] + bye.out);
    assert MapOut(members, topic, out) ==
           Mapped(bye.members, [SendTo(peer, topic, m1)] + ([SendTo(peer, topic, m2)] + bye.out));
    HangupsOf([SendTo(peer, topic, m1)], [SendTo(peer, topic, m2)], bye.out, other);
  }

  lemma HangupsOf(a: seq<ProtocolOut>, b: seq<ProtocolOut>, d: seq<ProtocolOut>, peer: Id)
    requires |a| == |b| == 1 && !a[0].Hangup? && !b[0].Hangup? && |d| <= 1
    ensures Hangups(a + (b + d), peer) == if d == [Hangup(peer)] then 1 else 0
  {
    HangupsConcat(a, b + d, peer);
    HangupsConcat(b, d, peer);
    assert a[1..] == [] && b[1..] == [];
    if d != [] { assert d[1..] == [] && d == [d[0]]; }
  }

  lemma {:induction false} FarewellsMap(
      c: Config, t: Topic, peers: seq<Id>, members: seq<Membership>, live: set<Id>, topic: Id, other: Id)
    requires NoDup(peers) && MembersOk(members, live) && topic in live
    ensures var m := MapOut(members, topic, Farewells(c, t, peers).out);
            && MembersOk(m.members, live)
            && TopicsOf(m.members, other) == (if other in peers then TopicsOf(members, other) - {topic}
                                              else TopicsOf(members, other))
            && Hangups(m.out, other) == if other in peers && TopicsOf(members, other) - {topic} == {} then 1 else 0
    decreases |peers|
  {
    hide MembersOk, TopicsOf, Sample, InfosOf, Forget, MapOut;
    if peers == [] {
      assert MapOut(members, topic, []) == Mapped(members, []) by { MapNone(members, topic); }
    } else {
      var bye := Farewell(c, Forget(t, peers[0]), peers[0], false);
      FarewellMaps(members, live, topic, peers[0], bye.out[0].message, bye.out[1].message, other);
      assert bye.out == [Send(peers[0], bye.out[0].message), Send(peers[0], bye.out[1].message),
                         DisconnectPeer(peers[0])];
      hide Farewell;
      var first := MapOut(members, topic, bye.out);
      var rest := Farewells(c, bye.t, peers[1..]);
      FarewellsMap(c, bye.t, peers[1..], first.members, live, topic, other);
      MapConcat(members, topic, bye.out, rest.out);
      HangupsConcat(first.out, MapOut(first.members, topic, rest.out).out, other);
    }
  }

  lemma MapNone(members: seq<Membership>, topic: Id)
    ensures MapOut(members, topic, []) == Mapped(members, [])
  {
  }

  /** The topic's part of quitting, mapped. */
  lemma QuitMaps(c: Config, t: Topic, now: int, members: seq<Membership>, live: set<Id>, topic: Id, peer: Id)
    requires NoDup(t.neighbors) && MembersOk(members, live) && topic in live
    ensures var m := MapOut(members, topic, Handle(c, t, CommandQuit, now).out);
            && MembersOk(m.members, live)
            && TopicsOf(m.members, peer) == (if peer in t.neighbors then TopicsOf(members, peer) - {topic}
                                             else TopicsOf(members, peer))
            && Hangups(m.out, peer) == if peer in t.neighbors && TopicsOf(members, peer) - {topic} == {} then 1 else 0
  {
    hide MembersOk, TopicsOf, Farewells, MapOut, Hangups;
    var u := Expire(t, now);
    FarewellsMap(c, u, t.neighbors, members, live, topic, peer);
    var bye := Farewells(c, u, t.neighbors);
    var first := MapOut(members, topic, bye.out);
    MapConcat(members, topic, bye.out, [ScheduleShuffle()]);
    ShuffleMaps(first.members, topic, peer);
    HangupsConcat(first.out, MapOut(first.members, topic, [ScheduleShuffle()]).out, peer);
  }

  lemma ShuffleMaps(members: seq<Membership>, topic: Id, peer: Id)
    ensures var m := MapOut(members, topic, [ScheduleShuffle()]);
            m.members == members && Hangups(m.out, peer) == 0
  {
    assert [ScheduleShuffle()][1..] == [];
    var out := MapOut(members, topic, [ScheduleShuffle()]).out;
    assert out == [ScheduleFor(SHUFFLE_INTERVAL, topic, DoShuffle)];
    assert out[1..] == [];
  }
}
