# Verification of the enlace protocols

A Dafny model of the protocol cores of enlace and of the two TypeScript
libraries it builds on, and proofs about them for all inputs and all runs.

- `GossipTopic` specifies one gossip topic, a HyParView-style membership layer
  with a Plumtree-style broadcast, as a pure step from state, event and clock to
  state and emitted events. `GossipViews` and `GossipMemory` prove what each
  handler keeps, `GossipRuns` what holds in every run, and `GossipState` is the
  object with its mutable fields, proved to take those steps. Random choices are
  read from an arbitrary function, and timers fire in any order.
- `GossipProtocol`, `GossipPeers`, `GossipProtocolRuns` and `GossipProtocolState`
  do the same for the layer that owns the topics. `GossipWalks` is a network of
  such nodes.
- `Postcard`, `GossipTypes`, `GossipWire`, `GossipReader`, `GossipStream` and
  `GossipChunks` are the gossip wire format, its chunked frame reader and the
  cutting of announcements to size.
- `DnsMessage` specifies the DNS message codec with name compression (section
  4.1.4 of RFC 1035) and service bindings (section 2.2 of RFC 9460); `DnsCodec`
  and `DnsReader` are its writer and reader; `DnsNames`, `DnsBindings`,
  `DnsRoundTrip` and `DnsCollisions` show that they undo each other.
- `Varint`, `QuicFrames`, `QuicRoundTrip`, `QuicAck`, `QuicCryptoStream` and
  `QuicProtection` are QUIC varints, frames, acknowledgements, CRYPTO
  reassembly, header protection and packet nonces.
- `Z32`, `ByteOrder`, `PkarrPackets`, `PkarrCache`, `PkarrResolve`,
  `PkarrPublish` and `PkarrInflight` are the pkarr client: its key encoding,
  LRU cache, folding of relay answers, publish quorum and requests in flight.
- `Slots` and `SlotRuns` are shared-seed slots: endpoints, relay and the merge of
  several transports.

A thrown exception or a panic is `Err`; which one is not told apart. Hashes,
ciphers, signatures, clocks and random sources are parameters.

Properties that the code meets only under a condition have the condition proved
exact, with an input that shows it is needed: names whose labels contain a NUL
can collide in the compression table (`DnsCollisions`), a QUIC field above
2^53 - 1 is written but not read back (`QuicRoundTrip`), postcard numbers from
2^42 on are refused by the decoder (`Postcard`), an even publish split depends on
the order of answers (`PkarrPublish`), header protection needs a header before
the packet number (`QuicProtection`), and a 1-RTT packet too short to sample is
refused only after it was sealed, so its number is used again
(`QuicProtection`).

One difference from the documents the code follows: frame types are looked up by
their low eight bits when they are STREAM types, so a two-byte type such as
0x108 is parsed as a STREAM frame; the model does as the code does.

## Model

| member | source | states |
|---|---|---|
| `GossipRuns.RunViews` | packages/iroh-lite/src/gossip/state.ts:443-1267 | in every run of a topic until it quits, whatever the messages, timers and random choices: both views are within capacity, without repeats, disjoint and without this node; each neighbour is in exactly one of the eager and lazy sets; lazy-push queues exist only for lazy peers; and replaying all neighbor-up and neighbor-down events, which must alternate for each peer, gives exactly the active view |
| `GossipRuns.RunGrafts` | packages/iroh-lite/src/gossip/state.ts:1003-1148 | in every run: an announced, missing id has a non-empty source queue; unless this node broadcast it to the swarm itself it is not in the seen set and at least one send-graft timer is outstanding for it; and GRAFTs sent for an id never exceed IHAVE entries received for it |
| `GossipRuns.RunNoRepeat` | packages/iroh-lite/src/gossip/state.ts:532-673 | in every run with a non-decreasing clock: once an id is delivered or broadcast at swarm scope, no later event within 90 s emits a received event for that id |
| `GossipRuns.RunCache` | packages/iroh-lite/src/gossip/state.ts:1092-1124 | in every run: a cached body hashes to its id, and the id is in the seen set with an expiry exactly 60 s after the cache entry's |
| `GossipViews.GoodHandle` | packages/iroh-lite/src/gossip/state.ts:492-522 | every event but quit keeps the views and push sets in order, and its neighbour events lead from the old active view to the new one |
| `GossipViews.GoodAddActive` | packages/iroh-lite/src/gossip/state.ts:676-718 | admitting a peer, evicting one when the view is full, keeps the invariant, reports each change, and leaves seen, cached and missing messages alone |
| `GossipViews.GoodRemoveActive` | packages/iroh-lite/src/gossip/state.ts:736-767 | removing a neighbour, kept as passive or not, keeps the invariant, reports the change, and leaves seen and cached messages alone |
| `GossipViews.GoodAddPassive` | packages/iroh-lite/src/gossip/state.ts:803-820 | adding a passive peer, evicting one when the view is full, keeps the invariant and never touches the active view |
| `GossipViews.GoodForwardJoin` | packages/iroh-lite/src/gossip/state.ts:852-884 | handling a forwarded join keeps the invariant and emits no neighbour event that the active view does not bear out |
| `GossipViews.GoodShuffle` | packages/iroh-lite/src/gossip/state.ts:886-921 | handling a shuffle keeps the invariant and leaves the active view as it is |
| `GossipViews.GoodLazyPush` | packages/iroh-lite/src/gossip/state.ts:974-1001 | queueing an announcement keeps queues for lazy peers only |
| `GossipViews.GoodEager` | packages/iroh-lite/src/gossip/state.ts:1126-1131 | a peer turning eager keeps the invariant, its queued announcements dropped, and changes no view |
| `GossipViews.GoodLazy` | packages/iroh-lite/src/gossip/state.ts:1133-1137 | a peer turning lazy keeps the invariant and changes no view |
| `GossipMemory.HandleGrafts` | packages/iroh-lite/src/gossip/state.ts:1003-1090 | every event but quit keeps the sources and graft timers of missing ids, and sends no GRAFT that no announcement has paid for |
| `GossipMemory.GraftTimerKeeps` | packages/iroh-lite/src/gossip/state.ts:1063-1090 | firing a graft timer, seen id or not, leaves every other missing id with a timer, and this one too while it has sources |
| `GossipMemory.IHaveGraft` | packages/iroh-lite/src/gossip/state.ts:1003-1031 | an IHAVE of any length keeps the invariant, each entry adding at most one source |
| `GossipMemory.HandleRemembers` | packages/iroh-lite/src/gossip/state.ts:492-522 | no event forgets an unexpired seen id or delivers it again; what is delivered to the swarm is seen for the full 90 s; cached ids stay seen |
| `GossipState.TopicState.ExpireSeen` | packages/iroh-lite/src/gossip/state.ts:1113-1118 | deleting expired ids one by one leaves exactly the unexpired ones with their expiry |
| `GossipState.TopicState.ExpireCache` | packages/iroh-lite/src/gossip/state.ts:1119-1123 | deleting expired bodies one by one leaves exactly the unexpired ones |
| `GossipState.TopicState.Handle` | packages/iroh-lite/src/gossip/state.ts:492-522 | the object's handler leaves exactly the state, and returns exactly the events, of the specified step that the run theorems are about |
| `GossipState.TopicState.Enter` | packages/iroh-lite/src/gossip/state.ts:699-717 | its eviction, admission and reply: leaves exactly the specified state and returns exactly the specified events |
| `GossipState.TopicState.AddPassive` | packages/iroh-lite/src/gossip/state.ts:803-820 | the passive view: leaves exactly the specified state and returns exactly the specified events |
| `GossipState.TopicState.Refill` | packages/iroh-lite/src/gossip/state.ts:822-839 | refilling the active view: leaves exactly the specified state and returns exactly the specified events |
| `GossipState.TopicState.HandleForwardJoin` | packages/iroh-lite/src/gossip/state.ts:852-884 | a forwarded join: leaves exactly the specified state and returns exactly the specified events |
| `GossipState.TopicState.HandleShuffle` | packages/iroh-lite/src/gossip/state.ts:886-921 | a shuffle: leaves exactly the specified state and returns exactly the specified events |
| `GossipState.TopicState.RandomSample` | packages/iroh-lite/src/gossip/state.ts:1468-1483 | sampling draws without replacement, one draw a value, until enough or none are left |
| `GossipState.TopicState.LazyPush` | packages/iroh-lite/src/gossip/state.ts:974-1001 | lazy push: leaves exactly the specified state and returns exactly the specified events |
| `GossipState.TopicState.HandleIHave` | packages/iroh-lite/src/gossip/state.ts:1003-1031 | announcements: leaves exactly the specified state and returns exactly the specified events |
| `GossipState.TopicState.DispatchQueues` | packages/iroh-lite/src/gossip/state.ts:1034-1055 | every queue is sent as the chunks of its entries, in order |
| `GossipState.TopicState.HandleJoin` | packages/iroh-lite/src/gossip/state.ts:585-591 | a received join: leaves exactly the specified state and returns exactly the specified events |
| `GossipState.TopicState.EagerPush` | packages/iroh-lite/src/gossip/state.ts:962-972 | eager push to all but the sender: leaves exactly the specified state and returns exactly the specified events |
| `GossipState.TopicState.Farewell` | packages/iroh-lite/src/gossip/state.ts:1223-1258 | a farewell with a sample of passive peers first: leaves exactly the specified state and returns exactly the specified events |
| `GossipState.TopicState.PickActiveExcept` | packages/iroh-lite/src/gossip/state.ts:923-930 | a random choice among the neighbours not excluded: leaves exactly the specified state and returns exactly the specified events |
| `GossipState.TopicState.DoShuffle` | packages/iroh-lite/src/gossip/state.ts:1191-1221 | starting a shuffle: leaves exactly the specified state and returns exactly the specified events |
| `GossipState.TopicState.SendJoins` | packages/iroh-lite/src/gossip/state.ts:525-531 | a join command: leaves exactly the specified state and returns exactly the specified events |
| `GossipState.TopicState.FarewellAll` | packages/iroh-lite/src/gossip/state.ts:550-559 | the farewells of a quit: leaves exactly the specified state and returns exactly the specified events |
| `GossipWalks.WalksEnd` | packages/iroh-lite/src/gossip/state.ts:852-921 | in every run of every network of nodes, with messages delayed or lost, a forward-join or shuffle walk that set out with ttl k is forwarded at most k times, and a message of it still in flight has at most the remaining ttl |
| `GossipWalks.WalksBounded` | packages/iroh-lite/src/gossip/state.ts:852-921 | from every network in which each walk has at most one message in flight, every run keeps that so, and a walk is forwarded no more often than the ttl of its message allows, and never again once it has none |
| `GossipWalks.HopsLeft` | packages/iroh-lite/src/gossip/state.ts:852-921 | at any moment of any run, a forward-join or shuffle in flight with ttl k leads to at most k more forwards |
| `GossipWalks.HandleForwards` | packages/iroh-lite/src/gossip/state.ts:852-921 | a node that handles a walk message forwards it at most once, unchanged but for a ttl lower by one, and never at ttl 0 |
| `GossipProtocolRuns.RunMembers` | packages/iroh-lite/src/gossip/state.ts:211-413 | in every reachable state of the protocol every peer has at most one membership, non-empty and naming live topics only; and whatever comes next, each disconnect-peer is emitted at a moment when its peer is used for no topic |
| `GossipProtocolRuns.RunQuit` | packages/iroh-lite/src/gossip/state.ts:277-281 | in every reachable state, quitting a topic disconnects exactly once each peer used for that topic alone, never a peer that shares another topic, and an untracked peer just when it is a neighbour; the topic is then live no more and named by no membership |
| `GossipProtocolRuns.HandleOk` | packages/iroh-lite/src/gossip/state.ts:248-291 | every event keeps memberships and topics in order |
| `GossipPeers.FarewellsMap` | packages/iroh-lite/src/gossip/state.ts:335-412 | mapping the farewells of a quit hangs up once on each neighbour that has no other topic |
| `GossipPeers.PurgeTopics` | packages/iroh-lite/src/gossip/state.ts:400-412 | removing a topic's memberships takes it off every peer and hangs up once on each that had nothing else |
| `GossipProtocolState.ProtocolState.QuitTopic` | packages/iroh-lite/src/gossip/state.ts:277-281 | quitting a topic: leaves exactly the specified state and returns exactly the specified events |
| `GossipProtocolState.ProtocolState.Handle` | packages/iroh-lite/src/gossip/state.ts:248-291 | the object, which owns the topic objects and shares one random source among them, takes exactly the specified step |
| `GossipProtocolState.ProtocolState.HandleTopicEvent` | packages/iroh-lite/src/gossip/state.ts:304-314 | one topic: leaves exactly the specified state and returns exactly the specified events |
| `GossipProtocolState.ProtocolState.HandleAllTopics` | packages/iroh-lite/src/gossip/state.ts:293-302 | all topics in order: leaves exactly the specified state and returns exactly the specified events |
| `GossipProtocolState.ProtocolState.RequireTopic` | packages/iroh-lite/src/gossip/state.ts:316-333 | creating a topic on demand: leaves exactly the specified state and returns exactly the specified events |
| `GossipProtocolState.ProtocolState.MapTopicOut` | packages/iroh-lite/src/gossip/state.ts:335-374 | tracking peers and mapping a topic's events: leaves exactly the specified state and returns exactly the specified events |
| `GossipProtocolState.ProtocolState.RemoveTopicMemberships` | packages/iroh-lite/src/gossip/state.ts:400-412 | dropping a topic's memberships: leaves exactly the specified state and returns exactly the specified events |
| `GossipChunks.ChunksCorrect` | packages/iroh-lite/src/gossip/state.ts:1150-1168 | for a limit of at least 512 bytes: chunking loses, duplicates and reorders nothing, every chunk is non-empty and its IHAVE encodes within the limit, and no chunk has room for the next entry |
| `GossipChunks.ChunkIHaveMessages` | packages/iroh-lite/src/gossip/state.ts:1150-1168 | the loop computes that chunking |
| `GossipChunks.SingleSize` | packages/iroh-lite/src/gossip/wire.ts:613-615 | an IHAVE of a single entry is at most 43 bytes |
| `Postcard.EncodePostcardLen` | packages/iroh-lite/src/bytes.ts:69-86 | the loop writes seven bits a byte, least significant first, and refuses unsafe integers |
| `Postcard.DecodePostcardLen` | packages/iroh-lite/src/bytes.ts:88-105 | the loop reads it back, refusing a seventh byte |
| `Postcard.ReadLenAt` | packages/iroh-lite/src/bytes.ts:69-105 | an encoded number reads back, stopping right after it, if and only if it is below 2^42; otherwise it is refused |
| `Postcard.WideLength` | packages/iroh-lite/src/bytes.ts:69-105 | 2^42, which the encoder accepts and the decoder refuses |
| `GossipWire.MessageRoundTrip` | packages/iroh-lite/src/gossip/wire.ts:148-271 | decoding an encoded message gives the message back (a broadcast with the hash of its content as id) if and only if every number and length in it is below 2^42; otherwise decoding fails |
| `GossipReader.PostcardReader.Uint` | packages/iroh-lite/src/gossip/wire.ts:639-643 | a number is read as specified and the offset moves past it |
| `GossipReader.PostcardReader.FixedBytes` | packages/iroh-lite/src/gossip/wire.ts:661-669 | bytes are read if there are enough and the offset moves past them |
| `GossipReader.PostcardReader.SwarmFields` | packages/iroh-lite/src/gossip/wire.ts:391-461 | the fields of each swarm message are read as specified |
| `GossipReader.PostcardReader.GossipFields` | packages/iroh-lite/src/gossip/wire.ts:463-526 | the fields of each broadcast-layer message are read as specified |
| `GossipReader.DecodeGossipTopicMessage` | packages/iroh-lite/src/gossip/wire.ts:379-526 | the decoder with its moving offset computes the specified decoding, trailing bytes refused |
| `GossipReader.PostcardReader.PeerVec` | packages/iroh-lite/src/gossip/wire.ts:571-578 | the loop over counted peers reads what is specified and leaves the offset after it |
| `GossipReader.PostcardReader.EntryVec` | packages/iroh-lite/src/gossip/wire.ts:504-512 | the loop over counted IHAVE entries reads what is specified and leaves the offset after it |
| `GossipStream.FrameReader.TryReadBufferedFrame` | packages/iroh-lite/src/gossip/wire.ts:325-340 | a buffered frame is the next frame of all bytes still to come; an oversized header is an error; otherwise nothing changes |
| `GossipStream.FrameReader.ReadFrame` | packages/iroh-lite/src/gossip/wire.ts:305-341 | whatever the chunks, the next frame of the bytes still to come is returned, or end of stream, or an error for an oversized or incomplete frame |
| `GossipStream.Drain` | packages/iroh-lite/src/gossip/wire.ts:291-341 | reading until the end gives all frames of the delivered bytes, independent of how they were cut |
| `GossipStream.StreamRoundTrip` | packages/iroh-lite/src/gossip/wire.ts:140-341 | a stream of encoded messages reads back as those messages if and only if every frame is within the limit and every number below 2^42 |
| `GossipStream.AnyChunking` | packages/iroh-lite/src/gossip/wire.ts:291-341 | for every cutting of the encoded stream into chunks the frames decode to the messages in order |
| `Bytes.ConcatBytes` | packages/iroh-lite/src/bytes.ts:5-14 | filling one buffer part by part gives the concatenation |
| `DnsCollisions.RoundTripIff` | packages/pkarr-lite/src/dns.ts:60-108 | for every record list the encoder accepts, parsing the packet gives the records in canonical form (owner names normalised, service parameters and mandatory keys sorted, text as chunks) if and only if no two different name suffixes in it share a key in the compression table |
| `DnsCollisions.RoundTrip` | packages/pkarr-lite/src/dns.ts:60-108 | that condition holds, and so does the round trip, whenever no label contains a NUL |
| `DnsCollisions.NulCollision` | packages/pkarr-lite/src/dns.ts:497-519 | two accepted names, one with a NUL in a label, whose suffix keys collide, so that the packet parses to other records |
| `DnsNames.EncodeCompressedOk` | packages/pkarr-lite/src/dns.ts:497-519 | a name written with compression denotes, by following pointers, exactly its labels, and every entry of the suffix table still points at the suffix it names |
| `DnsRoundTrip.TextChunksConcat` | packages/pkarr-lite/src/dns.ts:608-632 | text is cut into chunks that concatenate to it |
| `DnsBindings.CanonParamsValid` | packages/pkarr-lite/src/dns.ts:246-384 | sorting the parameters and mandatory keys of a valid service binding leaves it valid |
| `DnsCodec.WriteRecords` | packages/pkarr-lite/src/dns.ts:70-72 | the records are appended in order, the suffix table passed along |
| `DnsCodec.WriteKeys` | packages/pkarr-lite/src/dns.ts:386-393 | keys are appended as two bytes each, unless one is out of range |
| `DnsCodec.EncodeDnsResponse` | packages/pkarr-lite/src/dns.ts:60-81 | the writer produces exactly the specified packet or fails exactly when specified |
| `DnsCodec.WriteRecord` | packages/pkarr-lite/src/dns.ts:131-149 | a record is appended with its back-patched length equal to the length of its data |
| `DnsCodec.WriteCompressedName` | packages/pkarr-lite/src/dns.ts:497-519 | a name is appended as labels up to the longest suffix already in the table, then a pointer; the new suffixes enter the table |
| `DnsCodec.WriteName` | packages/pkarr-lite/src/dns.ts:521-527 | a name is appended without compression |
| `DnsCodec.WriteRecordData` | packages/pkarr-lite/src/dns.ts:151-175 | the data of each record type is appended |
| `DnsCodec.WriteServiceBinding` | packages/pkarr-lite/src/dns.ts:246-268 | a service binding is appended with its parameters sorted |
| `DnsCodec.WriteParam` | packages/pkarr-lite/src/dns.ts:255-266 | a parameter is appended with its back-patched length |
| `DnsCodec.WriteServiceParam` | packages/pkarr-lite/src/dns.ts:386-425 | the value of each parameter type is appended |
| `DnsCodec.ValidateServiceBinding` | packages/pkarr-lite/src/dns.ts:291-345 | one pass decides exactly whether keys are distinct, every parameter is well formed, no-default-alpn comes with alpn, and mandatory keys are present |
| `DnsCodec.Writer.SetU16` | packages/pkarr-lite/src/dns.ts:747-750 | two bytes at an offset are overwritten and nothing else |
| `DnsCodec.Writer.PutU32` | packages/pkarr-lite/src/dns.ts:733-741 | four big-endian bytes are appended, or the value is out of range |
| `DnsReader.Reader.GetServiceParams` | packages/pkarr-lite/src/dns.ts:276-285 | parameters are read while their keys increase, up to the end of the record |
| `DnsReader.Reader.GetRecords` | packages/pkarr-lite/src/dns.ts:97-100 | the announced number of records is read |
| `DnsReader.Reader.GetChunks` | packages/pkarr-lite/src/dns.ts:634-640 | length-prefixed chunks are read up to the end of the record |
| `DnsReader.ParseDnsResponse` | packages/pkarr-lite/src/dns.ts:83-108 | the reader returns exactly the specified records, or fails, on every byte string |
| `DnsReader.Reader.GetName` | packages/pkarr-lite/src/dns.ts:529-582 | the pointer-following loop terminates on every byte string, reads the specified name, and leaves the offset after the first pointer or the final zero |
| `DnsReader.Reader.GetRecord` | packages/pkarr-lite/src/dns.ts:177-194 | a record is read and its data ends where its length says |
| `DnsReader.Reader.GetRecordData` | packages/pkarr-lite/src/dns.ts:196-219 | the data of each record type is read |
| `DnsReader.Reader.GetServiceBinding` | packages/pkarr-lite/src/dns.ts:270-289 | a service binding is read, with strictly increasing keys, and validated |
| `DnsReader.Reader.GetServiceParam` | packages/pkarr-lite/src/dns.ts:427-472 | the value of each parameter type is read |
| `DnsReader.Reader.PassQuestions` | packages/pkarr-lite/src/dns.ts:92-95 | questions are passed over |
| `DnsReader.Reader.PassRecords` | packages/pkarr-lite/src/dns.ts:102-104 | further sections are passed over |
| `Varint.VarIntAt` | packages/iroh-lite/src/varint.ts:10-61 | wherever an encoded integer stands, decoding gives it back and stops right after it (section 16 of RFC 9000) |
| `Varint.DecodeVarInt` | packages/iroh-lite/src/varint.ts:46-61 | the accumulator loop computes that decoding on every byte string |
| `Varint.NumberAt` | packages/iroh-lite/src/varint.ts:63-75 | decoding to a number gives back exactly the safe integers and refuses the rest |
| `QuicRoundTrip.FramesRoundTrip` | packages/iroh-lite/src/quic/frame.ts:155-342 | parsing any concatenation of encoder outputs gives the same frames in order, with adjacent padding merged and empty padding gone, if and only if every field the parser returns as a number is a safe integer |
| `QuicRoundTrip.FrameAt` | packages/iroh-lite/src/quic/frame.ts:162-266 | every encoder but padding's is self-delimiting: wherever its output stands the parser reads back the frame and stops right after it |
| `QuicRoundTrip.WideNumber` | packages/iroh-lite/src/quic/frame.ts:227-229 | a maximum of 2^53, which the encoder accepts and the parser refuses |
| `QuicRoundTrip.ParsedTiles` | packages/iroh-lite/src/quic/frame.ts:268-342 | whatever parses, the frames' spans follow each other without gap from the start to the end of the bytes |
| `QuicFrames.ParseOne` | packages/iroh-lite/src/quic/frame.ts:274-338 | one frame of any type is parsed as specified, or refused |
| `QuicFrames.ParseAckRanges` | packages/iroh-lite/src/quic/frame.ts:404-411 | the ranges of an ACK are read, each below the one before |
| `QuicFrames.ParseQuicFrames` | packages/iroh-lite/src/quic/frame.ts:268-342 | the loop returns the specified frames with their spans, or fails, on every byte string and offset |
| `QuicFrames.ParsePaddingFrame` | packages/iroh-lite/src/quic/frame.ts:344-356 | a run of zero bytes is one padding frame |
| `QuicFrames.ParseAckFrame` | packages/iroh-lite/src/quic/frame.ts:386-436 | the loop over ranges computes the specified frame, every range validated against the one before |
| `QuicAck.RunAcks` | packages/iroh-lite/src/quic/ack.ts:80-104 | after any run of packets the ACK answering the last one parses to a single frame whose ranges are maximal, do not touch, and denote exactly the ack-eliciting packet numbers received so far (section 19.3.1 of RFC 9000) |
| `QuicAck.AckMeans` | packages/iroh-lite/src/quic/frame.ts:166-199 | the same for any list of numbers given to the encoder, repeats and order irrelevant |
| `QuicAck.AckEncodes` | packages/iroh-lite/src/quic/frame.ts:166-199 | encoding fails only for an empty list, a bad delay or a number out of range |
| `QuicAck.RangesOk` | packages/iroh-lite/src/quic/frame.ts:591-617 | the ranges built from sorted numbers are maximal, apart, and cover just those numbers |
| `QuicAck.UnpackPack` | packages/iroh-lite/src/quic/frame.ts:178-198 | gaps and lengths denote the ranges they were made from |
| `QuicAck.BuildAckPacketRanges` | packages/iroh-lite/src/quic/frame.ts:591-617 | the loop builds those ranges |
| `QuicAck.EncodeQuicAckFrame` | packages/iroh-lite/src/quic/frame.ts:166-199 | the loop writes the encoding of that frame |
| `QuicAck.ReceiveOneRttFrames` | packages/iroh-lite/src/quic/ack.ts:80-104 | a packet is recorded if and only if some frame of it is ack-eliciting, and answered with the ACK of all recorded |
| `QuicAck.AckReceiveTracker.Record` | packages/iroh-lite/src/quic/ack.ts:19-21 | a number in range joins the recorded ones, once |
| `QuicCryptoStream.Fill` | packages/iroh-lite/src/quic/crypto-stream.ts:11-40 | the buffers are filled from sorted frames with the result that assembling has to give |
| `QuicCryptoStream.AssembleCryptoStream` | packages/iroh-lite/src/quic/crypto-stream.ts:4-41 | the result is an error only if frames contradict each other or leave a gap before the largest end, and otherwise the bytes that agree with every frame |
| `QuicCryptoStream.AssembledIff` | packages/iroh-lite/src/quic/crypto-stream.ts:4-41 | so it succeeds if and only if frames agree on overlaps and cover every position up to the largest end |
| `QuicCryptoStream.OrderIrrelevant` | packages/iroh-lite/src/quic/crypto-stream.ts:4-41 | the result is the same for every permutation, and even repetition, of the frames |
| `QuicCryptoStream.WriteFrame` | packages/iroh-lite/src/quic/crypto-stream.ts:16-27 | a frame is written unless it contradicts a byte already written |
| `QuicProtection.XorInPlace` | packages/iroh-lite/src/quic/crypto.ts:163-167 | the packet number bytes are combined with the mask in place and nothing else changes |
| `QuicProtection.ProtectionRestoresIff` | packages/iroh-lite/src/quic/crypto.ts:148-208 | for a packet long enough to sample, removing header protection gives back what it was applied to for every cipher if and only if the packet number does not start the packet and the first-byte mask is the one of the header form (section 5.4 of RFC 9001) |
| `QuicProtection.MatchingRestores` | packages/iroh-lite/src/quic/crypto.ts:148-208 | then the packet, its first byte and its number length all come back |
| `QuicProtection.OneRttRestores` | packages/iroh-lite/src/quic/one-rtt.ts:249-267 | a 1-RTT packet meets the condition: its receiver gets back exactly what was sealed |
| `QuicProtection.EncryptsIff` | packages/iroh-lite/src/quic/one-rtt.ts:249-267 | a 1-RTT packet is refused exactly when number and payload together are shorter than four bytes |
| `QuicProtection.ApplyHeaderProtection` | packages/iroh-lite/src/quic/crypto.ts:176-197 | the loop over a copied packet computes the specified protection |
| `QuicProtection.RemoveHeaderProtection` | packages/iroh-lite/src/quic/crypto.ts:148-174 | the loop over a copied packet computes the specified removal |
| `QuicProtection.QuicPacketNonce` | packages/iroh-lite/src/quic/crypto.ts:105-116 | the loop, which stops when no byte of the number is left, combines the IV with the whole number |
| `QuicProtection.NoncesDiffer` | packages/iroh-lite/src/quic/crypto.ts:105-116 | under one IV, different packet numbers make different nonces |
| `QuicProtection.SentNoncesDistinct` | packages/iroh-lite/src/quic/one-rtt.ts:84-119 | over every run of sends, whatever their keys, no two packets returned under one IV have the same nonce (section 5.3 of RFC 9001) |
| `QuicProtection.SealedNoncesDistinctIff` | packages/iroh-lite/src/quic/one-rtt.ts:84-119 | over every run of sends under one IV, the nonces of all sealings are different if and only if every payload but the last is long enough to sample with the number it gets, as long as numbers last |
| `QuicProtection.NonceReused` | packages/iroh-lite/src/quic/one-rtt.ts:84-119 | an empty payload and then four bytes, from number 0, are sealed under one nonce |
| `QuicProtection.OneRttSendState.Send` | packages/iroh-lite/src/quic/one-rtt.ts:95-118 | the object takes exactly the step that the run theorems are about: the next number advances by one exactly when a packet is returned, and the last number is never used |
| `Z32.RoundTrip` | packages/pkarr-lite/src/z32.ts:7-50 | decoding an encoded byte string gives it back |
| `Z32.EncodeZ32` | packages/pkarr-lite/src/z32.ts:7-27 | the loop, though its 32-bit accumulator wraps, spells in base 32 the number of the bytes padded with zero bits, in exactly ceil(8n/5) characters |
| `Z32.DecodeZ32` | packages/pkarr-lite/src/z32.ts:29-50 | the loop, though its accumulator wraps, returns the whole bytes of the number spelled, or fails on a character not in the table |
| `PkarrCache.CacheIsHistory` | packages/pkarr-lite/src/cache.ts:48-87 | after any history of calls a lookup finds the packet last put under a key exactly when the key is among the capacity most recently used distinct keys, a get counting as use when it hits; and there are never more entries than the capacity |
| `PkarrCache.InMemoryCache.Put` | packages/pkarr-lite/src/cache.ts:48-61 | the key moves to the end with the new packet and the oldest entries beyond the capacity go |
| `PkarrCache.InMemoryCache.Get` | packages/pkarr-lite/src/cache.ts:63-72 | a hit is returned and moves to the end |
| `PkarrCache.InMemoryCache.EvictOverflow` | packages/pkarr-lite/src/cache.ts:79-87 | the last entries within the capacity stay |
| `PkarrResolve.FoldIsMaximum` | packages/pkarr-lite/src/client.ts:475-504 | folding any answers leaves a packet that was cached or answered and than which none offered is more recent |
| `PkarrResolve.FoldOrderIrrelevant` | packages/pkarr-lite/src/client.ts:460-504 | whatever the order of the answers, the packet left is equally recent |
| `PkarrResolve.CacheIncoming` | packages/pkarr-lite/src/client.ts:475-504 | one answer is folded in, and returned exactly when it is news |
| `PkarrPackets.RecencyTotal` | packages/pkarr-lite/src/signed-packet.ts:237-242 | recency is asymmetric, and packets neither of which is more recent agree in timestamp and message |
| `PkarrPackets.RecencyChains` | packages/pkarr-lite/src/signed-packet.ts:237-242 | recency is transitive, and so is not being more recent |
| `ByteOrder.CompareBytes` | packages/pkarr-lite/src/bytes.ts:5-14 | the loop computes the lexicographic comparison |
| `PkarrPublish.SucceedsIff` | packages/pkarr-lite/src/client.ts:337-409 | of n answers a publish settles, and succeeds if and only if at least ceil(n/2) accept and it is not an even split between acceptances and one fatal error that ends with an acceptance |
| `PkarrPublish.SettlesInTime` | packages/pkarr-lite/src/client.ts:337-417 | every publish settles by the n-th answer |
| `PkarrPublish.OrderIrrelevant` | packages/pkarr-lite/src/client.ts:337-409 | success does not depend on the order of the answers unless exactly half accept and the other half all report the same NotMostRecent or CasFailed |
| `PkarrPublish.SplitDecidedByOrder` | packages/pkarr-lite/src/client.ts:371-409 | in that case it succeeds exactly when the last answer is a refusal |
| `PkarrPublish.MostCommonIs` | packages/pkarr-lite/src/client.ts:714-722 | the error reported when all have answered has the highest count |
| `PkarrInflight.RunInflight` | packages/pkarr-lite/src/client.ts:296-432 | in every run of interleaved publishes the requests in flight for a key get strictly more recent; exactly the unsettled ones are in a list; a request that all n relays answered is settled, gone from the list, and decided as above |
| `PkarrInflight.PublishClient.StartPublish` | packages/pkarr-lite/src/client.ts:296-335 | the same signature joins the request in flight; otherwise a packet must be more recent than the latest one and name its timestamp |
| `PkarrInflight.PublishClient.ReceiveAnswer` | packages/pkarr-lite/src/client.ts:371-409 | an answer is counted and a settled request leaves its list |
| `PkarrInflight.PublishClient.ClearInflight` | packages/pkarr-lite/src/client.ts:419-432 | the request leaves its list, and an empty list goes |
| `SlotRuns.RunVersions` | crates/enlace/src/state.rs:267-296 | in every run of any number of endpoints the versions an endpoint issues for a slot strictly increase and exceed every version it has recorded as seen |
| `SlotRuns.RelayIncreases` | crates/enlace-relay/src/lib.rs:482-505 | in every run, until it expires, a relay entry stays or gives way to one of a strictly higher version |
| `SlotRuns.GetThenPut` | crates/enlace/src/coordinator.rs:217-308 | in every run in which all endpoints can open all values: a get, its answer heard, and a later put by the same endpoint are never stale unless another write to the slot took effect since the get, whatever else happens in between |
| `Slots.SlotGet` | crates/enlace/src/coordinator.rs:257-308 | the loop fails exactly when there are answers and all are failures, and otherwise returns the candidate newest by version and then sealed bytes |
| `Slots.CompletionOrderIrrelevant` | crates/enlace/src/coordinator.rs:257-308 | that result is the same for every order of completion |
| `Slots.NewerTotal` | crates/enlace/src/coordinator.rs:512-514 | the order on version and sealed bytes is strict and total |
| `Slots.SlotVersions.NextLocalSlotVersion` | crates/enlace/src/state.rs:267-279 | the version issued is one above everything issued or seen, and is refused when that overflows 64 bits |
| `Slots.SlotVersions.RecordSeenSlotVersion` | crates/enlace/src/state.rs:287-296 | the seen version only rises, and the answer says whether it did |
| `Slots.Relay.PutSlot` | crates/enlace-relay/src/lib.rs:482-493 | a write is stale exactly when an unexpired entry has at least its version, and otherwise replaces the entry |
| `Slots.Relay.GetSlotNewer` | crates/enlace-relay/src/lib.rs:495-505 | an expired entry is removed; an unexpired one is returned if newer than asked for |

## Left out

- HTTP, WebSocket and QUIC transports, dialling, reconnecting, promise scheduling, configuration and the chat interface.
- TLS, key schedules, packet number recovery, stream flow control and the primitives themselves.
- Sealing and opening of slot values, persistence of relay slots, and the order in which slot watchers are told.
- Mailboxes, topics and groups of the enlace crates, which queue and fan out messages over transports, their health tracking, deduplication and name validation.
- Which exception is thrown, and the text of messages.
- Text forms in DNS records: IP addresses are their bytes, names are lists of labels, and non-ASCII text is taken as the bytes it encodes to.
- `findResourceRecords`, TTL expiry of packets, and the checks of a publish against the cache before it starts.
- Timer values of unknown shape, which a topic ignores.
- The rejection loop of `randomInt`: a draw below n is an arbitrary number modulo n, and may depend on everything drawn before.
- A client without a cache, and `lastSeen` beyond what a put stores.
- Which of two transports that hold the same value a slot get names as its source.
- `writeU64` and `readU64` of signed packets: a packet is its fields, not their concatenation.
- Poisoning of locks after a panic.
