/** The gossip stream: postcard messages in length-prefixed frames. */
module GossipWire {
  import opened Bytes
  import opened Postcard
  import opened GossipTypes

  // ---------------------------------------------------------------- encoders

  function EncodeData(data: Option<Bytes>): Bytes {
    match data
    case None => EncodeLen(0)
    case Some(bytes) => EncodeLen(1) + (EncodeLen(|bytes|) + bytes)
  }

  function EncodePeer(peer: PeerInfo): Bytes {
    peer.id + EncodeData(peer.data)
  }

  function EncodePeers(nodes: seq<PeerInfo>): Bytes {
    if nodes == [] then [] else EncodePeer(nodes[0]) + EncodePeers(nodes[1..])
  }

  function EncodeEntry(entry: Entry): Bytes {
    entry.id + EncodeLen(entry.round)
  }

  function EncodeEntries(entries: seq<Entry>): Bytes {
    if entries == [] then [] else EncodeEntry(entries[0]) + EncodeEntries(entries[1..])
  }

  function EncodeScope(scope: Scope): Bytes {
    match scope
    case Swarm(round) => EncodeLen(0) + EncodeLen(round)
    case Neighbors => EncodeLen(1)
  }

  function EncodeOptionalId(id: Option<Id>): Bytes {
    match id
    case None => EncodeLen(0)
    case Some(bytes) => EncodeLen(1) + bytes
  }

  function EncodePriority(priority: Priority): Bytes {
    EncodeLen(if priority.High? then 0 else 1)
  }

  function EncodeBool(value: bool): Bytes { [if value then 1 else 0] }

  /** Layer and variant, in the order of the enums. */
  function Tags(m: Message): (nat, nat) {
    match m
    case Join(_) => (0, 0)
    case ForwardJoin(_, _) => (0, 1)
    case Shuffle(_, _, _) => (0, 2)
    case ShuffleReply(_) => (0, 3)
    case Neighbor(_, _) => (0, 4)
    case Disconnect(_, _) => (0, 5)
    case Gossip(_, _, _) => (1, 0)
    case Prune => (1, 1)
    case Graft(_, _) => (1, 2)
    case IHave(_) => (1, 3)
  }

  /** A broadcast carries the hash of its content as its id. */
  function Fields(hash: Bytes -> Id, m: Message): Bytes {
    match m
    case Join(data) => EncodeData(data)
    case ForwardJoin(peer, ttl) => EncodePeer(peer) + EncodeLen(ttl)
    case Shuffle(origin, nodes, ttl) =>
      origin + (EncodeLen(|nodes|) + (EncodePeers(nodes) + EncodeLen(ttl)))
    case ShuffleReply(nodes) => EncodeLen(|nodes|) + EncodePeers(nodes)
    case Neighbor(priority, data) => EncodePriority(priority) + EncodeData(data)
    case Disconnect(alive, respond) => EncodeBool(alive) + EncodeBool(respond)
    case Gossip(_, content, scope) =>
      hash(content) + (EncodeLen(|content|) + (content + EncodeScope(scope)))
    case Prune => []
    case Graft(wanted, round) => EncodeOptionalId(wanted) + EncodeLen(round)
    case IHave(entries) => EncodeLen(|entries|) + EncodeEntries(entries)
  }

  function Payload(hash: Bytes -> Id, m: Message): Bytes {
    EncodeLen(Tags(m).0) + (EncodeLen(Tags(m).1) + Fields(hash, m))
  }

  /** The numbers a message carries, lengths included. */
  function DataNumbers(data: Option<Bytes>): set<nat> {
    match data
    case None => {}
    case Some(bytes) => {|bytes|}
  }

  function Numbers(m: Message): set<nat> {
    match m
    case Join(data) => DataNumbers(data)
    case ForwardJoin(peer, ttl) => DataNumbers(peer.data) + {ttl}
    case Shuffle(_, nodes, ttl) => {|nodes|, ttl} + PeersNumbers(nodes)
    case ShuffleReply(nodes) => {|nodes|} + PeersNumbers(nodes)
    case Neighbor(_, data) => DataNumbers(data)
    case Disconnect(_, _) => {}
    case Gossip(_, content, scope) => {|content|} + (if scope.Swarm? then {scope.round} else {})
    case Prune => {}
    case Graft(_, round) => {round}
    case IHave(entries) => {|entries|} + EntriesNumbers(entries)
  }

  function PeersNumbers(nodes: seq<PeerInfo>): set<nat> {
    if nodes == [] then {} else DataNumbers(nodes[0].data) + PeersNumbers(nodes[1..])
  }

  function EntriesNumbers(entries: seq<Entry>): set<nat> {
    if entries == [] then {} else {entries[0].round} + EntriesNumbers(entries[1..])
  }

  ghost predicate Below(numbers: set<nat>, limit: nat) {
    forall n :: n in numbers ==> n < limit
  }

  /** `encodeGossipStreamFrame` */
  function EncodeFrame(payload: Bytes): Result<Bytes> {
    var _ :- Check(|payload| <= 0xffff_ffff);
    Ok(U32(|payload|) + payload)
  }

  // ---------------------------------------------------------------- decoders

  function ReadId(buf: Bytes, off: nat): Result<Read<Id>> {
    var bytes :- Take(buf, off, 32);
    Ok(Read(bytes.value, bytes.next))
  }

  function ReadBytes(buf: Bytes, off: nat): Result<Read<Bytes>> {
    var length :- ReadLen(buf, off);
    Take(buf, length.next, length.value)
  }

  function ReadBool(buf: Bytes, off: nat): Result<Read<bool>> {
    var b :- ReadU8(buf, off);
    var _ :- Check(b.value <= 1);
    Ok(Read(b.value == 1, b.next))
  }

  function ReadData(buf: Bytes, off: nat): Result<Read<Option<Bytes>>> {
    var option :- ReadLen(buf, off);
    match option.value
    case 0 => Ok(Read(None, option.next))
    case 1 => var bytes :- ReadBytes(buf, option.next); Ok(Read(Some(bytes.value), bytes.next))
    case _ => Err
  }

  function ReadPeer(buf: Bytes, off: nat): Result<Read<PeerInfo>> {
    var id :- ReadId(buf, off);
    var data :- ReadData(buf, id.next);
    Ok(Read(PeerInfo(id.value, data.value), data.next))
  }

  function ReadPeers(buf: Bytes, off: nat, count: nat): Result<Read<seq<PeerInfo>>>
    decreases count
  {
    if count == 0 then Ok(Read([], off))
    else
      var first :- ReadPeer(buf, off);
      var rest :- ReadPeers(buf, first.next, count - 1);
      Ok(Read([first.value] + rest.value, rest.next))
  }

  function ReadPeerVec(buf: Bytes, off: nat): Result<Read<seq<PeerInfo>>> {
    var length :- ReadLen(buf, off);
    ReadPeers(buf, length.next, length.value)
  }

  function ReadEntry(buf: Bytes, off: nat): Result<Read<Entry>> {
    var id :- ReadId(buf, off);
    var round :- ReadLen(buf, id.next);
    Ok(Read(Entry(id.value, round.value), round.next))
  }

  function ReadEntries(buf: Bytes, off: nat, count: nat): Result<Read<seq<Entry>>>
    decreases count
  {
    if count == 0 then Ok(Read([], off))
    else
      var first :- ReadEntry(buf, off);
      var rest :- ReadEntries(buf, first.next, count - 1);
      Ok(Read([first.value] + rest.value, rest.next))
  }

  function ReadEntryVec(buf: Bytes, off: nat): Result<Read<seq<Entry>>> {
    var length :- ReadLen(buf, off);
    ReadEntries(buf, length.next, length.value)
  }

  function ReadScope(buf: Bytes, off: nat): Result<Read<Scope>> {
    var variant :- ReadLen(buf, off);
    match variant.value
    case 0 => var round :- ReadLen(buf, variant.next); Ok(Read(Swarm(round.value), round.next))
    case 1 => Ok(Read(Neighbors, variant.next))
    case _ => Err
  }

  function ReadOptionalId(buf: Bytes, off: nat): Result<Read<Option<Id>>> {
    var option :- ReadLen(buf, off);
    match option.value
    case 0 => Ok(Read(None, option.next))
    case 1 => var id :- ReadId(buf, option.next); Ok(Read(Some(id.value), id.next))
    case _ => Err
  }

  function ReadPriority(buf: Bytes, off: nat): Result<Read<Priority>> {
    var variant :- ReadLen(buf, off);
    match variant.value
    case 0 => Ok(Read(High, variant.next))
    case 1 => Ok(Read(Low, variant.next))
    case _ => Err
  }

  function ReadFields(buf: Bytes, layer: nat, variant: nat, off: nat): Result<Read<Message>> {
    match (layer, variant)
    case (0, 0) => var d :- ReadData(buf, off); Ok(Read(Join(d.value), d.next))
    case (0, 1) =>
      var peer :- ReadPeer(buf, off);
      var ttl :- ReadLen(buf, peer.next);
      Ok(Read(ForwardJoin(peer.value, ttl.value), ttl.next))
    case (0, 2) =>
      var origin :- ReadId(buf, off);
      var nodes :- ReadPeerVec(buf, origin.next);
      var ttl :- ReadLen(buf, nodes.next);
      Ok(Read(Shuffle(origin.value, nodes.value, ttl.value), ttl.next))
    case (0, 3) => var nodes :- ReadPeerVec(buf, off); Ok(Read(ShuffleReply(nodes.value), nodes.next))
    case (0, 4) =>
      var priority :- ReadPriority(buf, off);
      var d :- ReadData(buf, priority.next);
      Ok(Read(Neighbor(priority.value, d.value), d.next))
    case (0, 5) =>
      var alive :- ReadBool(buf, off);
      var respond :- ReadBool(buf, alive.next);
      Ok(Read(Disconnect(alive.value, respond.value), respond.next))
    case (1, 0) =>
      var id :- ReadId(buf, off);
      var content :- ReadBytes(buf, id.next);
      var scope :- ReadScope(buf, content.next);
      Ok(Read(Gossip(id.value, content.value, scope.value), scope.next))
    case (1, 1) => Ok(Read(Prune, off))
    case (1, 2) =>
      var wanted :- ReadOptionalId(buf, off);
      var round :- ReadLen(buf, wanted.next);
      Ok(Read(Graft(wanted.value, round.value), round.next))
    case (1, 3) => var entries :- ReadEntryVec(buf, off); Ok(Read(IHave(entries.value), entries.next))
    case _ => Err
  }

  /** `decodeGossipTopicMessage`: the whole payload must be used. */
  function DecodeMessage(payload: Bytes): Result<Message> {
    var layer :- ReadLen(payload, 0);
    var variant :- ReadLen(payload, layer.next);
    var m :- ReadFields(payload, layer.value, variant.value, variant.next);
    var _ :- Check(m.next == |payload|);
    Ok(m.value)
  }

  // -------------------------------------------------------------- round trip

  /** What a reader must answer where `e` stands: the value, or a refusal
      because a number is too large. */
  ghost function Answer<T>(small: bool, value: T, next: nat): Result<Read<T>> {
    if small then Ok(Read(value, next)) else Err
  }

  lemma ReadBytesAt(buf: Bytes, off: nat, bytes: Bytes)
    requires Has(buf, off, EncodeLen(|bytes|) + bytes)
    ensures ReadBytes(buf, off) ==
            Answer(|bytes| < DECODE_LIMIT, bytes, off + |EncodeLen(|bytes|) + bytes|)
  {
    HasSplit(buf, off, EncodeLen(|bytes|), bytes);
    ReadLenAt(buf, off, |bytes|);
  }

  lemma ReadTagAt(buf: Bytes, off: nat, tag: nat)
    requires tag < 128 && Has(buf, off, EncodeLen(tag))
    ensures ReadLen(buf, off) == Ok(Read(tag, off + 1))
  {
    ReadLenAt(buf, off, tag);
  }

  lemma ReadDataAt(buf: Bytes, off: nat, data: Option<Bytes>)
    requires Has(buf, off, EncodeData(data))
    ensures ReadData(buf, off) ==
            Answer(Below(DataNumbers(data), DECODE_LIMIT), data, off + |EncodeData(data)|)
  {
    hide Has, ReadLen, ReadBytes;
    match data
    case None => ReadTagAt(buf, off, 0);
    case Some(bytes) =>
      HasSplit(buf, off, EncodeLen(1), EncodeLen(|bytes|) + bytes);
      ReadTagAt(buf, off, 1);
      ReadBytesAt(buf, off + 1, bytes);
  }

  lemma ReadIdAt(buf: Bytes, off: nat, id: Id)
    requires Has(buf, off, id)
    ensures ReadId(buf, off) == Ok(Read(id, off + 32))
  {
  }

  lemma ReadPeerAt(buf: Bytes, off: nat, peer: PeerInfo)
    requires Has(buf, off, EncodePeer(peer))
    ensures ReadPeer(buf, off) ==
            Answer(Below(DataNumbers(peer.data), DECODE_LIMIT), peer, off + |EncodePeer(peer)|)
  {
    hide Has, ReadId, ReadData, EncodeData, Below;
    HasSplit(buf, off, peer.id, EncodeData(peer.data));
    ReadIdAt(buf, off, peer.id);
    ReadDataAt(buf, off + 32, peer.data);
  }

  lemma BelowUnion(a: set<nat>, b: set<nat>, limit: nat)
    ensures Below(a + b, limit) <==> Below(a, limit) && Below(b, limit)
  {
  }

  lemma {:induction false} ReadPeersAt(buf: Bytes, off: nat, nodes: seq<PeerInfo>)
    requires Has(buf, off, EncodePeers(nodes))
    ensures ReadPeers(buf, off, |nodes|) ==
            Answer(Below(PeersNumbers(nodes), DECODE_LIMIT), nodes, off + |EncodePeers(nodes)|)
    decreases |nodes|
  {
    hide Has, ReadPeer, EncodePeer;
    if nodes != [] {
      hide Below;
      HasSplit(buf, off, EncodePeer(nodes[0]), EncodePeers(nodes[1..]));
      ReadPeerAt(buf, off, nodes[0]);
      ReadPeersAt(buf, off + |EncodePeer(nodes[0])|, nodes[1..]);
      BelowUnion(DataNumbers(nodes[0].data), PeersNumbers(nodes[1..]), DECODE_LIMIT);
      assert nodes == [nodes[0]] + nodes[1..];
    }
  }

  lemma ReadPeerVecAt(buf: Bytes, off: nat, nodes: seq<PeerInfo>)
    requires Has(buf, off, EncodeLen(|nodes|) + EncodePeers(nodes))
    ensures ReadPeerVec(buf, off) ==
            Answer(Below({|nodes|} + PeersNumbers(nodes), DECODE_LIMIT), nodes,
                   off + |EncodeLen(|nodes|) + EncodePeers(nodes)|)
  {
    hide Has, ReadLen, ReadPeers, EncodePeers, PeersNumbers;
    HasSplit(buf, off, EncodeLen(|nodes|), EncodePeers(nodes));
    ReadLenAt(buf, off, |nodes|);
    ReadPeersAt(buf, off + |EncodeLen(|nodes|)|, nodes);
    BelowUnion({|nodes|}, PeersNumbers(nodes), DECODE_LIMIT);
  }

  lemma ReadEntryAt(buf: Bytes, off: nat, entry: Entry)
    requires Has(buf, off, EncodeEntry(entry))
    ensures ReadEntry(buf, off) == Answer(entry.round < DECODE_LIMIT, entry, off + |EncodeEntry(entry)|)
  {
    hide Has, ReadId, ReadLen;
    HasSplit(buf, off, entry.id, EncodeLen(entry.round));
    ReadIdAt(buf, off, entry.id);
    ReadLenAt(buf, off + 32, entry.round);
  }

  lemma {:induction false} ReadEntriesAt(buf: Bytes, off: nat, entries: seq<Entry>)
    requires Has(buf, off, EncodeEntries(entries))
    ensures ReadEntries(buf, off, |entries|) ==
            Answer(Below(EntriesNumbers(entries), DECODE_LIMIT), entries, off + |EncodeEntries(entries)|)
    decreases |entries|
  {
    hide Has, ReadEntry, EncodeEntry;
    if entries != [] {
      HasSplit(buf, off, EncodeEntry(entries[0]), EncodeEntries(entries[1..]));
      ReadEntryAt(buf, off, entries[0]);
      ReadEntriesAt(buf, off + |EncodeEntry(entries[0])|, entries[1..]);
      BelowUnion({entries[0].round}, EntriesNumbers(entries[1..]), DECODE_LIMIT);
      assert entries == [entries[0]] + entries[1..];
    }
  }

  lemma ReadEntryVecAt(buf: Bytes, off: nat, entries: seq<Entry>)
    requires Has(buf, off, EncodeLen(|entries|) + EncodeEntries(entries))
    ensures ReadEntryVec(buf, off) ==
            Answer(Below({|entries|} + EntriesNumbers(entries), DECODE_LIMIT), entries,
                   off + |EncodeLen(|entries|) + EncodeEntries(entries)|)
  {
    hide Has, ReadLen, ReadEntries, EncodeEntries, EntriesNumbers;
    HasSplit(buf, off, EncodeLen(|entries|), EncodeEntries(entries));
    ReadLenAt(buf, off, |entries|);
    ReadEntriesAt(buf, off + |EncodeLen(|entries|)|, entries);
    BelowUnion({|entries|}, EntriesNumbers(entries), DECODE_LIMIT);
  }

  lemma ReadScopeAt(buf: Bytes, off: nat, scope: Scope)
    requires Has(buf, off, EncodeScope(scope))
    ensures ReadScope(buf, off) ==
            Answer(scope.Swarm? ==> scope.round < DECODE_LIMIT, scope, off + |EncodeScope(scope)|)
  {
    hide Has, ReadLen;
    match scope
    case Swarm(round) =>
      HasSplit(buf, off, EncodeLen(0), EncodeLen(round));
      ReadTagAt(buf, off, 0);
      ReadLenAt(buf, off + 1, round);
    case Neighbors => ReadTagAt(buf, off, 1);
  }

  lemma ReadOptionalIdAt(buf: Bytes, off: nat, id: Option<Id>)
    requires Has(buf, off, EncodeOptionalId(id))
    ensures ReadOptionalId(buf, off) == Ok(Read(id, off + |EncodeOptionalId(id)|))
  {
    hide Has, ReadLen, ReadId;
    match id
    case None => ReadTagAt(buf, off, 0);
    case Some(bytes) =>
      HasSplit(buf, off, EncodeLen(1), bytes);
      ReadTagAt(buf, off, 1);
      ReadIdAt(buf, off + 1, bytes);
  }

  lemma ReadBoolAt(buf: Bytes, off: nat, value: bool)
    requires Has(buf, off, EncodeBool(value))
    ensures ReadBool(buf, off) == Ok(Read(value, off + 1))
  {
    HasIndex(buf, off, EncodeBool(value), 0);
  }

  // ------------------------------------------------------------ whole messages

  /** What the wire carries of a message: a broadcast's id is recomputed. */
  function OnWire(hash: Bytes -> Id, m: Message): Message {
    if m.Gossip? then m.(id := hash(m.content)) else m
  }

  ghost predicate Small(m: Message) {
    Below(Numbers(m), DECODE_LIMIT)
  }

  lemma ReadForwardJoinAt(buf: Bytes, off: nat, peer: PeerInfo, ttl: nat)
    requires Has(buf, off, EncodePeer(peer) + EncodeLen(ttl))
    ensures ReadFields(buf, 0, 1, off) ==
            Answer(Small(ForwardJoin(peer, ttl)), ForwardJoin(peer, ttl), off + |EncodePeer(peer) + EncodeLen(ttl)|)
  {
    hide Has, ReadPeer, ReadLen, EncodePeer, Below;
    HasSplit(buf, off, EncodePeer(peer), EncodeLen(ttl));
    ReadPeerAt(buf, off, peer);
    ReadLenAt(buf, off + |EncodePeer(peer)|, ttl);
    BelowUnion(DataNumbers(peer.data), {ttl}, DECODE_LIMIT);
    BelowOne(ttl);
  }

  lemma BelowOne(n: nat)
    ensures Below({n}, DECODE_LIMIT) <==> n < DECODE_LIMIT
  {
    assert n in {n};
  }

  lemma ReadShuffleAt(buf: Bytes, off: nat, origin: Id, nodes: seq<PeerInfo>, ttl: nat)
    requires Has(buf, off, origin + (EncodeLen(|nodes|) + (EncodePeers(nodes) + EncodeLen(ttl))))
    ensures ReadFields(buf, 0, 2, off) ==
            Answer(Small(Shuffle(origin, nodes, ttl)), Shuffle(origin, nodes, ttl),
                   off + |origin + (EncodeLen(|nodes|) + (EncodePeers(nodes) + EncodeLen(ttl)))|)
  {
    hide Has, ReadId, ReadPeerVec, ReadLen, EncodePeers, EncodeLen, PeersNumbers, Below;
    var list := EncodeLen(|nodes|) + EncodePeers(nodes);
    assert EncodeLen(|nodes|) + (EncodePeers(nodes) + EncodeLen(ttl)) == list + EncodeLen(ttl);
    HasSplit(buf, off, origin, list + EncodeLen(ttl));
    HasSplit(buf, off + 32, list, EncodeLen(ttl));
    ReadIdAt(buf, off, origin);
    ReadPeerVecAt(buf, off + 32, nodes);
    ReadLenAt(buf, off + 32 + |list|, ttl);
    assert {|nodes|, ttl} + PeersNumbers(nodes) == ({|nodes|} + PeersNumbers(nodes)) + {ttl};
    BelowUnion({|nodes|} + PeersNumbers(nodes), {ttl}, DECODE_LIMIT);
    BelowOne(ttl);
  }

  lemma ReadNeighborAt(buf: Bytes, off: nat, priority: Priority, data: Option<Bytes>)
    requires Has(buf, off, EncodePriority(priority) + EncodeData(data))
    ensures ReadFields(buf, 0, 4, off) ==
            Answer(Small(Neighbor(priority, data)), Neighbor(priority, data),
                   off + |EncodePriority(priority) + EncodeData(data)|)
  {
    hide Has, ReadLen, ReadData, EncodeData, Below;
    HasSplit(buf, off, EncodePriority(priority), EncodeData(data));
    ReadTagAt(buf, off, if priority.High? then 0 else 1);
    ReadDataAt(buf, off + 1, data);
  }

  lemma ReadDisconnectAt(buf: Bytes, off: nat, alive: bool, respond: bool)
    requires Has(buf, off, EncodeBool(alive) + EncodeBool(respond))
    ensures ReadFields(buf, 0, 5, off) == Ok(Read(Disconnect(alive, respond), off + 2))
  {
    hide Has, ReadBool;
    HasSplit(buf, off, EncodeBool(alive), EncodeBool(respond));
    ReadBoolAt(buf, off, alive);
    ReadBoolAt(buf, off + 1, respond);
  }

  lemma ReadGossipAt(buf: Bytes, off: nat, id: Id, content: Bytes, scope: Scope)
    requires Has(buf, off, id + (EncodeLen(|content|) + (content + EncodeScope(scope))))
    ensures ReadFields(buf, 1, 0, off) ==
            Answer(Small(Gossip(id, content, scope)), Gossip(id, content, scope),
                   off + |id + (EncodeLen(|content|) + (content + EncodeScope(scope)))|)
  {
    hide Has, ReadId, ReadBytes, ReadScope, EncodeScope, EncodeLen, Below;
    var body := EncodeLen(|content|) + content;
    assert EncodeLen(|content|) + (content + EncodeScope(scope)) == body + EncodeScope(scope);
    HasSplit(buf, off, id, body + EncodeScope(scope));
    HasSplit(buf, off + 32, body, EncodeScope(scope));
    ReadIdAt(buf, off, id);
    ReadBytesAt(buf, off + 32, content);
    ReadScopeAt(buf, off + 32 + |body|, scope);
    var rounds := if scope.Swarm? then {scope.round} else {};
    BelowUnion({|content|}, rounds, DECODE_LIMIT);
    BelowOne(|content|);
    BelowRound(scope);
  }

  lemma BelowRound(scope: Scope)
    ensures Below(if scope.Swarm? then {scope.round} else {}, DECODE_LIMIT) <==>
            (scope.Swarm? ==> scope.round < DECODE_LIMIT)
  {
    if scope.Swarm? {
      BelowOne(scope.round);
    }
  }

  lemma ReadGraftAt(buf: Bytes, off: nat, wanted: Option<Id>, round: nat)
    requires Has(buf, off, EncodeOptionalId(wanted) + EncodeLen(round))
    ensures ReadFields(buf, 1, 2, off) ==
            Answer(Small(Graft(wanted, round)), Graft(wanted, round),
                   off + |EncodeOptionalId(wanted) + EncodeLen(round)|)
  {
    hide Has, ReadOptionalId, EncodeOptionalId, ReadLen, Below;
    HasSplit(buf, off, EncodeOptionalId(wanted), EncodeLen(round));
    ReadOptionalIdAt(buf, off, wanted);
    ReadLenAt(buf, off + |EncodeOptionalId(wanted)|, round);
    BelowOne(round);
  }

  lemma ReadFieldsAt(hash: Bytes -> Id, buf: Bytes, off: nat, m: Message)
    requires Has(buf, off, Fields(hash, m))
    ensures ReadFields(buf, Tags(m).0, Tags(m).1, off) ==
            Answer(Small(m), OnWire(hash, m), off + |Fields(hash, m)|)
  {
    hide Has, ReadLen, ReadData, EncodeData, ReadPeerVec, ReadEntryVec, EncodePeers, EncodeEntries,
         EncodeLen, PeersNumbers, EntriesNumbers;
    match m
    case Join(data) => ReadDataAt(buf, off, data);
    case ForwardJoin(peer, ttl) => ReadForwardJoinAt(buf, off, peer, ttl);
    case Shuffle(origin, nodes, ttl) => ReadShuffleAt(buf, off, origin, nodes, ttl);
    case ShuffleReply(nodes) => ReadPeerVecAt(buf, off, nodes);
    case Neighbor(priority, data) => ReadNeighborAt(buf, off, priority, data);
    case Disconnect(alive, respond) => ReadDisconnectAt(buf, off, alive, respond);
    case Gossip(_, content, scope) => ReadGossipAt(buf, off, hash(content), content, scope);
    case Prune =>
    case Graft(wanted, round) => ReadGraftAt(buf, off, wanted, round);
    case IHave(entries) => ReadEntryVecAt(buf, off, entries);
  }

  /** A payload decodes to the message the wire carries exactly when every
      number in it is below 2 to the 42; otherwise the decoder refuses it. */
  lemma MessageRoundTrip(hash: Bytes -> Id, m: Message)
    ensures DecodeMessage(Payload(hash, m)) == if Small(m) then Ok(OnWire(hash, m)) else Err
  {
    hide Has, ReadLen, ReadFields, Fields, Small, OnWire;
    var payload := Payload(hash, m);
    var layer, variant := EncodeLen(Tags(m).0), EncodeLen(Tags(m).1);
    assert payload[0..|payload|] == payload;
    WholeHas(payload);
    HasSplit(payload, 0, layer, variant + Fields(hash, m));
    HasSplit(payload, 1, variant, Fields(hash, m));
    ReadTagAt(payload, 0, Tags(m).0);
    ReadTagAt(payload, 1, Tags(m).1);
    ReadFieldsAt(hash, payload, 2, m);
  }

  lemma WholeHas(bytes: Bytes)
    ensures Has(bytes, 0, bytes)
  {
    assert bytes[0..|bytes|] == bytes;
  }
}
