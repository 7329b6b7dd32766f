/** The message decoder as the program runs it: a reader object whose offset
    moves, and loops over counted lists. */
module GossipReader {
  import opened Bytes
  import opened Postcard
  import opened GossipTypes
  import opened GossipWire

  class PostcardReader {
    const bytes: Bytes
    var offset: nat

    constructor (buf: Bytes)
      ensures bytes == buf && offset == 0
    {
      bytes := buf;
      offset := 0;
    }

    method Uint() returns (r: Result<nat>)
      modifies this
      ensures Reads(r, offset, ReadLen(bytes, old(offset)))
    {
      var decoded := DecodePostcardLen(bytes, offset);
      var read :- decoded;
      offset := read.next;
      r := Ok(read.value);
    }

    method Bool() returns (r: Result<bool>)
      modifies this
      ensures Reads(r, offset, ReadBool(bytes, old(offset)))
    {
      if offset >= |bytes| {
        return Err;
      }
      var value := bytes[offset];
      offset := offset + 1;
      if value == 0 {
        return Ok(false);
      }
      if value == 1 {
        return Ok(true);
      }
      r := Err;
    }

    method FixedBytes(length: nat) returns (r: Result<Bytes>)
      modifies this
      ensures Reads(r, offset, Take(bytes, old(offset), length))
    {
      var end := offset + length;
      if end > |bytes| {
        return Err;
      }
      r := Ok(bytes[offset..end]);
      offset := end;
    }

    method FixedId() returns (r: Result<Id>)
      modifies this
      ensures Reads(r, offset, ReadId(bytes, old(offset)))
    {
      var taken := FixedBytes(32);
      var id :- taken;
      r := Ok(id);
    }

    method LengthPrefixed() returns (r: Result<Bytes>)
      modifies this
      ensures Reads(r, offset, ReadBytes(bytes, old(offset)))
    {
      hide ReadLen;
      var length :- Uint();
      r := FixedBytes(length);
    }

    method OptionalPeerData() returns (r: Result<Option<Bytes>>)
      modifies this
      ensures Reads(r, offset, ReadData(bytes, old(offset)))
    {
      hide ReadLen, ReadBytes;
      var option :- Uint();
      if option == 0 {
        return Ok(None);
      }
      if option != 1 {
        return Err;
      }
      var data :- LengthPrefixed();
      r := Ok(Some(data));
    }

    method Peer() returns (r: Result<PeerInfo>)
      modifies this
      ensures Reads(r, offset, ReadPeer(bytes, old(offset)))
    {
      hide ReadId, ReadData;
      var id :- FixedId();
      var data :- OptionalPeerData();
      r := Ok(PeerInfo(id, data));
    }

    method PeerVec() returns (r: Result<seq<PeerInfo>>)
      modifies this
      ensures Reads(r, offset, ReadPeerVec(bytes, old(offset)))
    {
      hide ReadLen, ReadPeer;
      var length :- Uint();
      var peers: seq<PeerInfo> := [];
      ghost var whole := ReadPeers(bytes, offset, length);
      ResumesStart(whole);
      for index := 0 to length
        invariant Resumes(peers, ReadPeers(bytes, offset, length - index), whole)
      {
        ghost var start := offset;
        var peer :- Peer();
        ResumesStep(peers, peer, ReadPeers(bytes, start, length - index), ReadPeers(bytes, offset, length - index - 1),
                    whole);
        peers := peers + [peer];
      }
      assert peers + [] == peers;
      r := Ok(peers);
    }

    method EntryVec() returns (r: Result<seq<Entry>>)
      modifies this
      ensures Reads(r, offset, ReadEntryVec(bytes, old(offset)))
    {
      hide ReadLen, ReadId;
      var length :- Uint();
      var entries: seq<Entry> := [];
      ghost var whole := ReadEntries(bytes, offset, length);
      ResumesStart(whole);
      for index := 0 to length
        invariant Resumes(entries, ReadEntries(bytes, offset, length - index), whole)
      {
        ghost var start := offset;
        var id :- FixedId();
        var round :- Uint();
        ResumesStep(entries, Entry(id, round), ReadEntries(bytes, start, length - index),
                    ReadEntries(bytes, offset, length - index - 1), whole);
        entries := entries + [Entry(id, round)];
      }
      assert entries + [] == entries;
      r := Ok(entries);
    }

    method DeliveryScope() returns (r: Result<Scope>)
      modifies this
      ensures Reads(r, offset, ReadScope(bytes, old(offset)))
    {
      hide ReadLen;
      var variant :- Uint();
      if variant == 0 {
        var round :- Uint();
        return Ok(Swarm(round));
      }
      if variant == 1 {
        return Ok(Neighbors);
      }
      r := Err;
    }

    method OptionalMessageId() returns (r: Result<Option<Id>>)
      modifies this
      ensures Reads(r, offset, ReadOptionalId(bytes, old(offset)))
    {
      hide ReadLen, ReadId;
      var option :- Uint();
      if option == 0 {
        return Ok(None);
      }
      if option != 1 {
        return Err;
      }
      var id :- FixedId();
      r := Ok(Some(id));
    }

    method NeighborPriority() returns (r: Result<Priority>)
      modifies this
      ensures Reads(r, offset, ReadPriority(bytes, old(offset)))
    {
      hide ReadLen;
      var variant :- Uint();
      if variant == 0 {
        return Ok(High);
      }
      if variant == 1 {
        return Ok(Low);
      }
      r := Err;
    }

    method SwarmFields(variant: nat) returns (r: Result<Message>)
      modifies this
      ensures Reads(r, offset, ReadFields(bytes, 0, variant, old(offset)))
    {
      hide ReadLen, ReadId, ReadData, ReadPeer, ReadPeerVec, ReadPriority, ReadBool;
      if variant == 0 {
        var data :- OptionalPeerData();
        return Ok(Join(data));
      }
      if variant == 1 {
        var peer :- Peer();
        var ttl :- Uint();
        return Ok(ForwardJoin(peer, ttl));
      }
      if variant == 2 {
        var origin :- FixedId();
        var nodes :- PeerVec();
        var ttl :- Uint();
        return Ok(Shuffle(origin, nodes, ttl));
      }
      if variant == 3 {
        var nodes :- PeerVec();
        return Ok(ShuffleReply(nodes));
      }
      if variant == 4 {
        var priority :- NeighborPriority();
        var data :- OptionalPeerData();
        return Ok(Neighbor(priority, data));
      }
      if variant == 5 {
        var alive :- Bool();
        var respond :- Bool();
        return Ok(Disconnect(alive, respond));
      }
      r := Err;
    }

    method GossipFields(variant: nat) returns (r: Result<Message>)
      modifies this
      ensures Reads(r, offset, ReadFields(bytes, 1, variant, old(offset)))
    {
      hide ReadLen, ReadId, ReadBytes, ReadScope, ReadOptionalId, ReadEntryVec;
      if variant == 0 {
        var id :- FixedId();
        var content :- LengthPrefixed();
        var scope :- DeliveryScope();
        return Ok(Gossip(id, content, scope));
      }
      if variant == 1 {
        return Ok(Prune);
      }
      if variant == 2 {
        var wanted :- OptionalMessageId();
        var round :- Uint();
        return Ok(Graft(wanted, round));
      }
      if variant == 3 {
        var entries :- EntryVec();
        return Ok(IHave(entries));
      }
      r := Err;
    }
  }

  /** `decodeGossipTopicMessage` */
  method DecodeGossipTopicMessage(payload: Bytes) returns (r: Result<Message>)
    ensures r == DecodeMessage(payload)
  {
    hide ReadLen, ReadFields;
    var reader := new PostcardReader(payload);
    var layer :- reader.Uint();
    var variant :- reader.Uint();
    var m: Result<Message>;
    if layer == 0 {
      m := reader.SwarmFields(variant);
    } else if layer == 1 {
      m := reader.GossipFields(variant);
    } else {
      NoSuchLayer(payload, layer, variant, reader.offset);
      return Err;
    }
    var message :- m;
    if reader.offset != |payload| {
      return Err;
    }
    r := Ok(message);
  }

  lemma NoSuchLayer(buf: Bytes, layer: nat, variant: nat, off: nat)
    requires layer > 1
    ensures ReadFields(buf, layer, variant, off).Err?
  {
  }
}
