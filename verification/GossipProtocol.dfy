/** The layer above topics: it owns the topics, shares one random source among
    them and counts which topics each peer is used for. */
module GossipProtocol {
  import opened Bytes
  import opened GossipTypes
  import opened GossipTopic

  /** What an application may ask of a topic. */
  type TopicCommand = e: Event | e.CommandJoin? || e.CommandBroadcast? || e.CommandQuit? witness CommandQuit

  datatype ProtocolEvent =
    | RecvMessage(peer: Id, topic: Id, message: Message)
    | Command(topic: Id, command: TopicCommand)
    | TimerFired(topic: Id, timer: Timer)
    | PeerGone(peer: Id)
    | NewPeerData(data: Option<Bytes>)

  datatype ProtocolOut =
    | SendTo(peer: Id, topic: Id, message: Message)
    | EmitFor(topic: Id, event: TopicEvent)
    | ScheduleFor(delay: nat, topic: Id, timer: Timer)
    | Hangup(peer: Id)
    | DataOf(peer: Id, data: Bytes)

  datatype Slot = Slot(id: Id, t: Topic)
  datatype Membership = Membership(peer: Id, topics: set<Id>)

  datatype Protocol = Protocol(
    topics: seq<Slot>, members: seq<Membership>, peerData: Option<Bytes>, draws: nat)

  datatype ProtocolStep = ProtocolStep(p: Protocol, out: seq<ProtocolOut>)

  // ------------------------------------------------------------- memberships

  /** `trackPeerTopic` */
  function Track(members: seq<Membership>, peer: Id, topic: Id): seq<Membership> {
    if members == [] then [Membership(peer, {topic})]
    else if members[0].peer == peer then [Membership(peer, members[0].topics + {topic})] + members[1..]
    else [members[0]] + Track(members[1..], peer, topic)
  }

  /** `untrackPeerTopic`, the state it leaves */
  function Untrack(members: seq<Membership>, peer: Id, topic: Id): seq<Membership> {
    if members == [] then []
    else if members[0].peer == peer then
      (if members[0].topics - {topic} == {} then members[1..]
       else [Membership(peer, members[0].topics - {topic})] + members[1..])
    else [members[0]] + Untrack(members[1..], peer, topic)
  }

  /** `untrackPeerTopic`, its answer: the peer was tracked for nothing else. */
  predicate LastTopic(members: seq<Membership>, peer: Id, topic: Id) {
    members != [] &&
    if members[0].peer == peer then members[0].topics - {topic} == {}
    else LastTopic(members[1..], peer, topic)
  }

  function Drop(members: seq<Membership>, peer: Id): seq<Membership> {
    if members == [] then []
    else if members[0].peer == peer then Drop(members[1..], peer)
    else [members[0]] + Drop(members[1..], peer)
  }

  datatype Mapped = Mapped(members: seq<Membership>, out: seq<ProtocolOut>)

  /** `mapTopicOut`, one event */
  function MapOne(members: seq<Membership>, topic: Id, o: Out): Mapped {
    match o
    case Send(peer, message) => Mapped(Track(members, peer, topic), [SendTo(peer, topic, message)])
    case Emit(event) => Mapped(members, [EmitFor(topic, event)])
    case Schedule(delay, timer) => Mapped(members, [ScheduleFor(delay, topic, timer)])
    case DisconnectPeer(peer) =>
      Mapped(Untrack(members, peer, topic), if LastTopic(members, peer, topic) then [Hangup(peer)] else [])
    case PeerData(peer, data) => Mapped(members, [DataOf(peer, data)])
  }

  function MapOut(members: seq<Membership>, topic: Id, out: seq<Out>): Mapped
    decreases |out|
  {
    if out == [] then Mapped(members, [])
    else
      var first := MapOne(members, topic, out[0]);
      var rest := MapOut(first.members, topic, out[1..]);
      Mapped(rest.members, first.out + rest.out)
  }

  /** `removeTopicMemberships` */
  function Purge(members: seq<Membership>, topic: Id): Mapped {
    if members == [] then Mapped([], [])
    else
      var rest := Purge(members[1..], topic);
      var left := members[0].topics - {topic};
      if left == {} then Mapped(rest.members, [Hangup(members[0].peer)] + rest.out)
      else Mapped([Membership(members[0].peer, left)] + rest.members, rest.out)
  }

  // ------------------------------------------------------------------ topics

  function Lookup(topics: seq<Slot>, id: Id): Option<Topic> {
    if topics == [] then None else if topics[0].id == id then Some(topics[0].t) else Lookup(topics[1..], id)
  }

  function Update(topics: seq<Slot>, id: Id, t: Topic): seq<Slot> {
    if topics == [] then []
    else if topics[0].id == id then [Slot(id, t)] + topics[1..]
    else [topics[0]] + Update(topics[1..], id, t)
  }

  function Delete(topics: seq<Slot>, id: Id): seq<Slot> {
    if topics == [] then []
    else if topics[0].id == id then Delete(topics[1..], id) else [topics[0]] + Delete(topics[1..], id)
  }

  function Ids(topics: seq<Slot>): seq<Id> {
    if topics == [] then [] else [topics[0].id] + Ids(topics[1..])
  }

  /** One live topic handles an event and its outputs are mapped. */
  function HandleTopic(c: Config, p: Protocol, id: Id, event: Event, now: int): ProtocolStep {
    var found := Lookup(p.topics, id);
    if found.None? then ProtocolStep(p, [])
    else
      var s := Handle(c, found.value.(draws := p.draws), event, now);
      var m := MapOut(p.members, id, s.out);
      ProtocolStep(p.(topics := Update(p.topics, id, s.t), members := m.members, draws := s.t.draws), m.out)
  }

  /** `handleAllTopics` */
  function HandleAll(c: Config, p: Protocol, ids: seq<Id>, event: Event, now: int): ProtocolStep
    decreases |ids|
  {
    if ids == [] then ProtocolStep(p, [])
    else
      var s := HandleTopic(c, p, ids[0], event, now);
      var rest := HandleAll(c, s.p, ids[1..], event, now);
      ProtocolStep(rest.p, s.out + rest.out)
  }

  /** `requireTopic` */
  function Require(p: Protocol, id: Id): Protocol {
    if Lookup(p.topics, id).Some? then p else p.(topics := p.topics + [Slot(id, NewTopic(p.peerData))])
  }

  function Quit(c: Config, p: Protocol, topic: Id, now: int): ProtocolStep {
    var s := HandleTopic(c, p, topic, CommandQuit, now);
    var purged := Purge(s.p.members, topic);
    ProtocolStep(s.p.(topics := Delete(s.p.topics, topic), members := purged.members), s.out + purged.out)
  }

  /** `GossipProtocolState.handle` */
  function HandleProtocol(c: Config, p: Protocol, event: ProtocolEvent, now: int): ProtocolStep {
    match event
    case PeerGone(peer) =>
      var s := HandleAll(c, p, Ids(p.topics), PeerDisconnected(peer), now);
      ProtocolStep(s.p.(members := Drop(s.p.members, peer)), s.out)
    case NewPeerData(data) =>
      HandleAll(c, p.(peerData := data), Ids(p.topics), UpdatePeerData(data), now)
    case TimerFired(topic, timer) => HandleTopic(c, p, topic, TimerExpired(timer), now)
    case RecvMessage(peer, topic, message) =>
      if Lookup(p.topics, topic).None? then ProtocolStep(p, [])
      else HandleTopic(c, p.(members := Track(p.members, peer, topic)), topic, Recv(peer, message), now)
    case Command(topic, command) =>
      if command.CommandQuit? then Quit(c, p, topic, now)
      else HandleTopic(c, if command.CommandJoin? then Require(p, topic) else p, topic, command, now)
  }
}
