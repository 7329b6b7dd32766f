/** Signed packets as far as their age goes: a timestamp, then the encoded
    message in byte order. */
module PkarrPackets {
  import opened Bytes
  import opened ByteOrder

  /** The fields that a packet's bytes spell; `lastSeen` is not among them. */
  datatype Body = Body(publicKey: Bytes, signature: Bytes, timestamp: nat, encoded: Bytes)
  datatype Packet = Packet(body: Body, lastSeen: int)

  /** `moreRecentThan` */
  predicate MoreRecent(a: Body, b: Body) {
    if a.timestamp == b.timestamp then Compare(a.encoded, b.encoded) > 0 else a.timestamp > b.timestamp
  }

  /** Equally recent: same timestamp and same encoded message. */
  ghost predicate SameAge(a: Body, b: Body) {
    a.timestamp == b.timestamp && a.encoded == b.encoded
  }

  /** Recency is a strict total order up to `SameAge`. */
  lemma RecencyTotal(a: Body, b: Body)
    ensures !(MoreRecent(a, b) && MoreRecent(b, a))
    ensures SameAge(a, b) <==> !MoreRecent(a, b) && !MoreRecent(b, a)
  {
    CompareFlips(a.encoded, b.encoded);
    CompareSame(a.encoded, b.encoded);
  }

  lemma RecencyChains(a: Body, b: Body, c: Body)
    ensures MoreRecent(a, b) && MoreRecent(b, c) ==> MoreRecent(a, c)
    ensures !MoreRecent(b, a) && !MoreRecent(c, b) ==> !MoreRecent(c, a)
  {
    if MoreRecent(a, b) && MoreRecent(b, c) && a.timestamp == b.timestamp == c.timestamp {
      CompareChains(a.encoded, b.encoded, c.encoded);
    }
    if !MoreRecent(b, a) && !MoreRecent(c, b) && a.timestamp == b.timestamp == c.timestamp {
      CompareFlips(a.encoded, b.encoded);
      CompareFlips(b.encoded, c.encoded);
      CompareFlips(a.encoded, c.encoded);
      CompareChains(a.encoded, b.encoded, c.encoded);
    }
  }
}
