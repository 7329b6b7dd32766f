/** The messages of the gossip protocol: a HyParView-style membership layer
    and a Plumtree-style broadcast layer. */
module GossipTypes {
  import opened Bytes

  /** Peer ids, topic ids and message ids are 32 bytes. */
  type Id = b: Bytes | |b| == 32 witness seq(32, _ => 0)

  datatype PeerInfo = PeerInfo(id: Id, data: Option<Bytes>)

  datatype Priority = High | Low

  datatype Scope = Swarm(round: nat) | Neighbors

  datatype Entry = Entry(id: Id, round: nat)

  datatype Message =
    | Join(data: Option<Bytes>)
    | ForwardJoin(peer: PeerInfo, ttl: nat)
    | Shuffle(origin: Id, nodes: seq<PeerInfo>, ttl: nat)
    | ShuffleReply(nodes: seq<PeerInfo>)
    | Neighbor(priority: Priority, data: Option<Bytes>)
    | Disconnect(alive: bool, respond: bool)
    | Gossip(id: Id, content: Bytes, scope: Scope)
    | Prune
    | Graft(wanted: Option<Id>, round: nat)
    | IHave(entries: seq<Entry>)

  /** A message that carries a broadcast body. */
  type Broadcast = m: Message | m.Gossip? witness Gossip(seq(32, _ => 0), [], Neighbors)
}
