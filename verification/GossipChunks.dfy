/** Cutting a queue of announcements into IHAVE messages that fit the size limit. */
module GossipChunks {
  import opened Bytes
  import opened Postcard
  import opened GossipTypes
  import opened GossipWire

  const MIN_MAX_SIZE := 512

  /** `ihavePayloadSize`: the payload of an IHAVE, without its frame header. */
  function IHaveSize(entries: seq<Entry>): nat {
    2 + |EncodeLen(|entries|)| + |EncodeEntries(entries)|
  }

  lemma IHaveSizeIsPayload(hash: Bytes -> Id, entries: seq<Entry>)
    ensures IHaveSize(entries) == |Payload(hash, IHave(entries))|
  {
  }

  /** The chunks still to come when `chunk` is being filled. */
  function ChunkFrom(chunk: seq<Entry>, entries: seq<Entry>, max: nat): seq<seq<Entry>>
    decreases |entries|
  {
    if entries == [] then (if chunk == [] then [] else [chunk])
    else
      var longer := chunk + [entries[0]];
      if chunk != [] && IHaveSize(longer) > max
      then [chunk] + ChunkFrom([entries[0]], entries[1..], max)
      else ChunkFrom(longer, entries[1..], max)
  }

  /** `chunkIHaveMessages` */
  method ChunkIHaveMessages(entries: seq<Entry>, max: nat) returns (chunks: seq<seq<Entry>>)
    ensures chunks == ChunkFrom([], entries, max)
  {
    hide IHaveSize;
    chunks := [];
    var chunk: seq<Entry> := [];
    ghost var whole := ChunkFrom([], entries, max);
    assert entries[0..] == entries;
    for i := 0 to |entries|
      invariant chunks + ChunkFrom(chunk, entries[i..], max) == whole
    {
      var rest := entries[i..];
      assert rest[0] == entries[i] && rest[1..] == entries[i + 1..];
      var next := chunk + [entries[i]];
      if |chunk| != 0 && IHaveSize(next) > max {
        assert chunks + ([chunk] + ChunkFrom([entries[i]], rest[1..], max)) ==
               chunks + [chunk] + ChunkFrom([entries[i]], rest[1..], max);
        chunks := chunks + [chunk];
        chunk := [entries[i]];
      } else {
        chunk := next;
      }
    }
    assert entries[|entries|..] == [];
    if |chunk| != 0 {
      chunks := chunks + [chunk];
    }
  }

  // -------------------------------------------------------------- properties

  lemma {:induction false} ChunkConcat(chunk: seq<Entry>, entries: seq<Entry>, max: nat)
    ensures Concat(ChunkFrom(chunk, entries, max)) == chunk + entries
    ensures forall c :: c in ChunkFrom(chunk, entries, max) ==> c != []
    decreases |entries|
  {
    hide IHaveSize;
    if entries == [] {
      assert [chunk][1..] == [];
      assert chunk + entries == chunk;
    } else {
      var longer, rest := chunk + [entries[0]], entries[1..];
      assert entries == [entries[0]] + rest;
      if chunk != [] && IHaveSize(longer) > max {
        ChunkConcat([entries[0]], rest, max);
        var tail := ChunkFrom([entries[0]], rest, max);
        assert ([chunk] + tail)[1..] == tail;
      } else {
        ChunkConcat(longer, rest, max);
        assert longer + rest == chunk + entries;
      }
    }
  }

  lemma {:induction false} LenSize(v: nat, k: nat)
    requires v < Groups(k) && k > 0
    ensures |EncodeLen(v)| <= k
    decreases k
  {
    if k == 1 {
      assert Groups(0) == 1;
    } else if v >= 128 {
      var g := Groups(k - 1);
      assert Groups(k) == 128 * g;
      assert v / 128 < g;
      LenSize(v / 128, k - 1);
    }
  }

  lemma SafeSize(v: nat)
    requires v <= MAX_SAFE
    ensures |EncodeLen(v)| <= 8
  {
    assert Groups(2) == 0x4000;
    assert Groups(4) == 0x1000_0000;
    assert Groups(6) == 0x400_0000_0000;
    assert Groups(8) == 0x100_0000_0000_0000;
    LenSize(v, 8);
  }

  /** One announcement always fits: at most 43 bytes. */
  lemma SingleSize(entry: Entry)
    requires entry.round <= MAX_SAFE
    ensures IHaveSize([entry]) <= 43
  {
    SafeSize(entry.round);
    assert [entry][1..] == [];
    assert EncodeEntries([entry]) == EncodeEntry(entry) + EncodeEntries([]);
    assert EncodeLen(1) == [1];
  }

  lemma {:induction false} ChunkFits(chunk: seq<Entry>, entries: seq<Entry>, max: nat)
    requires max >= MIN_MAX_SIZE && (chunk != [] ==> IHaveSize(chunk) <= max)
    requires forall e :: e in entries ==> e.round <= MAX_SAFE
    ensures forall c :: c in ChunkFrom(chunk, entries, max) ==> IHaveSize(c) <= max
    decreases |entries|
  {
    hide IHaveSize;
    if entries != [] {
      var longer := chunk + [entries[0]];
      SingleSize(entries[0]);
      assert forall e :: e in entries[1..] ==> e in entries;
      if chunk != [] && IHaveSize(longer) > max {
        ChunkFits([entries[0]], entries[1..], max);
      } else {
        assert chunk == [] ==> longer == [entries[0]];
        ChunkFits(longer, entries[1..], max);
      }
    }
  }

  /** No chunk could have taken the entry that follows it. */
  ghost predicate Greedy(chunks: seq<seq<Entry>>, max: nat) {
    |chunks| <= 1 ||
    (chunks[1] != [] && IHaveSize(chunks[0] + [chunks[1][0]]) > max && Greedy(chunks[1..], max))
  }

  lemma {:induction false} ChunkGreedy(chunk: seq<Entry>, entries: seq<Entry>, max: nat)
    ensures Greedy(ChunkFrom(chunk, entries, max), max)
    ensures chunk != [] ==> ChunkFrom(chunk, entries, max) != [] && chunk <= ChunkFrom(chunk, entries, max)[0]
    decreases |entries|
  {
    hide IHaveSize;
    if entries != [] {
      var longer := chunk + [entries[0]];
      if chunk != [] && IHaveSize(longer) > max {
        ChunkGreedy([entries[0]], entries[1..], max);
        var tail := ChunkFrom([entries[0]], entries[1..], max);
        assert ([chunk] + tail)[1..] == tail;
        assert [entries[0]] <= tail[0];
      } else {
        ChunkGreedy(longer, entries[1..], max);
      }
    }
  }

  /** Chunking loses, duplicates and reorders nothing; every chunk is a
      non-empty IHAVE within the limit; and no chunk has room for the next entry. */
  lemma ChunksCorrect(hash: Bytes -> Id, entries: seq<Entry>, max: nat)
    requires max >= MIN_MAX_SIZE && forall e :: e in entries ==> e.round <= MAX_SAFE
    ensures var chunks := ChunkFrom([], entries, max);
            && Concat(chunks) == entries
            && (forall c :: c in chunks ==> c != [] && |Payload(hash, IHave(c))| <= max)
            && Greedy(chunks, max)
  {
    hide ChunkFrom, Greedy, Payload, IHaveSize;
    ChunkConcat([], entries, max);
    assert [] + entries == entries;
    ChunkFits([], entries, max);
    ChunkGreedy([], entries, max);
    forall c | c in ChunkFrom([], entries, max) ensures |Payload(hash, IHave(c))| <= max {
      IHaveSizeIsPayload(hash, c);
    }
  }
}
