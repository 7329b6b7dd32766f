/** Parsing an encoded response gives back the records in canonical form. */
module DnsRoundTrip {
  import opened Bytes
  import opened DnsMessage
  import opened DnsNames
  import opened DnsBindings

  // ---------------------------------------------------------- canonical form

  function CanonData(d: Data): Data {
    match d
    case A(_) => d
    case Aaaa(_) => d
    case Cname(cname) => Cname(NameOf(NonEmpty(cname)))
    case Txt(text) => Txt(Chunks(TextChunks(text)))
    case Https(binding) => Https(CanonBinding(binding))
    case Svcb(binding) => Svcb(CanonBinding(binding))
  }

  /** What a reader sees of a record: the owner name under the origin and without
      empty labels, TXT content as chunks, bindings in key order. */
  function CanonRecord(origin: Name, r: Record): Record {
    Record(NameOf(NonEmpty(Normalize(origin, r.name))), r.ttl, CanonData(r.data))
  }

  function CanonRecords(origin: Name, records: seq<Record>): seq<Record> {
    if records == [] then []
    else [CanonRecord(origin, records[0])] + CanonRecords(origin, records[1..])
  }

  /** The chunks of a TXT string concatenate to it. */
  lemma {:induction false} SplitRestConcat(bytes: Bytes)
    ensures Concat(SplitRest(bytes)) == bytes
    ensures forall c :: c in SplitRest(bytes) ==> 0 < |c| <= 254
    decreases |bytes|
  {
    if |bytes| > 254 {
      SplitRestConcat(bytes[254..]);
      assert bytes == bytes[..254] + bytes[254..];
      assert ([bytes[..254]] + SplitRest(bytes[254..]))[1..] == SplitRest(bytes[254..]);
    } else if bytes != [] {
      assert [bytes][1..] == [];
    }
  }

  lemma TextChunksConcat(bytes: Bytes)
    ensures Concat(TextChunks(Whole(bytes))) == bytes
  {
    SplitRestConcat(bytes);
    assert bytes == [] ==> Concat([bytes]) == bytes + Concat([bytes][1..]);
  }

  // ----------------------------------------------------------------- records

  /** The compressed names of a record lie in `u`, with all their suffixes. */
  ghost predicate NamesIn(origin: Name, r: Record, u: iset<Labels>) {
    && AllSuffixes(NonEmpty(Normalize(origin, r.name)), u)
    && (r.data.Cname? ==> AllSuffixes(NonEmpty(r.data.cname), u))
  }

  lemma PrefixHas(pre: Bytes, e: Bytes, packet: Bytes)
    requires pre + e <= packet
    ensures Has(packet, |pre|, e)
  {
    assert packet[|pre|..|pre| + |e|] == (pre + e)[|pre|..];
  }

  /** A compressed name reads back, in any packet that continues the buffer. */
  lemma CompressedAt(pre: Bytes, refs: Refs, name: Name, e: Emit, packet: Bytes, u: iset<Labels>)
    requires RefsOk(pre, refs, u) && KeyInjective(u) && AllSuffixes(NonEmpty(name), u)
    requires NameLabels(name).Ok? && EncodeCompressed(|pre|, refs, NonEmpty(name)) == Ok(e)
    requires pre + e.bytes <= packet && |packet| <= MAX_PACKET
    ensures RefsOk(pre + e.bytes, e.refs, u)
    ensures ReadName(packet, |pre|) == Ok(Read(NameOf(NonEmpty(name)), |pre| + |e.bytes|))
  {
    hide RefsOk, KeyInjective, AllSuffixes, NameLabels, EncodeCompressed, NameAt, NameEnd, ReadName;
    var labels := NonEmpty(name);
    NameLabelsValid(name);
    EncodeCompressedOk(pre, refs, labels, e, u);
    NameAtExtends(pre + e.bytes, packet, |pre|, labels);
    ReadNameAt(packet, |pre|, labels);
  }

  lemma DataAt(pre: Bytes, refs: Refs, d: Data, e: Emit, packet: Bytes, u: iset<Labels>)
    requires RefsOk(pre, refs, u) && KeyInjective(u)
    requires d.Cname? ==> AllSuffixes(NonEmpty(d.cname), u)
    requires EncodeData(|pre|, refs, d) == Ok(e)
    requires pre + e.bytes <= packet && |packet| <= MAX_PACKET
    ensures RefsOk(pre + e.bytes, e.refs, u)
    ensures ReadData(packet, DataType(d), |pre|, |pre| + |e.bytes|) ==
            Ok(Read(CanonData(d), |pre| + |e.bytes|))
  {
    hide RefsOk, KeyInjective, AllSuffixes, NameLabels, EncodeCompressed, ReadName,
         EncodeBinding, ReadBinding, EncodeChunks, ReadChunks, TextChunks, CanonBinding;
    PrefixHas(pre, e.bytes, packet);
    if d.Cname? {
      NameLabelsValid(d.cname);
      CompressedAt(pre, refs, d.cname, e, packet, u);
    } else {
      RefsExtend(pre, pre + e.bytes, refs, u);
      match d
      case A(_) =>
      case Aaaa(_) =>
      case Txt(text) => ReadChunksAt(packet, |pre|, TextChunks(text), e.bytes);
      case Https(binding) => ReadBindingAt(packet, |pre|, binding, e.bytes);
      case Svcb(binding) => ReadBindingAt(packet, |pre|, binding, e.bytes);
    }
  }

  lemma ReadU32At(buf: Bytes, off: nat, value: nat)
    requires value <= 0xffff_ffff && Has(buf, off, U32(value))
    ensures ReadU32(buf, off) == Ok(Read(value, off + 4))
  {
    HasIndex(buf, off, U32(value), 0);
    HasIndex(buf, off, U32(value), 1);
    HasIndex(buf, off, U32(value), 2);
    HasIndex(buf, off, U32(value), 3);
  }

  /** The ten bytes between owner name and data. */
  lemma HeadAt(buf: Bytes, off: nat, r: Record, length: nat, rest: Bytes)
    requires 0 <= r.ttl <= 0xffff_ffff && length <= 0xffff
    requires Has(buf, off, RecordHead(r) + (U16(length) + rest))
    ensures ReadU16(buf, off) == Ok(Read(DataType(r.data), off + 2))
    ensures ReadU16(buf, off + 2) == Ok(Read(CLASS_IN, off + 4))
    ensures ReadU32(buf, off + 4) == Ok(Read(r.ttl, off + 8))
    ensures ReadU16(buf, off + 8) == Ok(Read(length, off + 10))
  {
    hide Has, U16, U32, ReadU16, ReadU32;
    var kind, class_, ttl := U16(DataType(r.data)), U16(CLASS_IN), U32(r.ttl);
    HasSplit(buf, off, RecordHead(r), U16(length) + rest);
    HasSplit(buf, off + 8, U16(length), rest);
    HasSplit(buf, off, kind, class_ + ttl);
    HasSplit(buf, off + 2, class_, ttl);
    ReadU16At(buf, off, DataType(r.data));
    ReadU16At(buf, off + 2, CLASS_IN);
    ReadU32At(buf, off + 4, r.ttl);
    ReadU16At(buf, off + 8, length);
  }

  lemma ReadRecordStep(buf: Bytes, off: nat, name: Read<Name>, kind: Read<nat>, class_: Read<nat>,
                       ttl: Read<nat>, length: Read<nat>, data: Read<Data>)
    requires ReadName(buf, off) == Ok(name)
    requires ReadU16(buf, name.next) == Ok(kind)
    requires ReadU16(buf, kind.next) == Ok(class_) && class_.value == CLASS_IN
    requires ReadU32(buf, class_.next) == Ok(ttl)
    requires ReadU16(buf, ttl.next) == Ok(length)
    requires ReadData(buf, kind.value, length.next, length.next + length.value) == Ok(data)
    requires data.next == length.next + length.value
    ensures ReadRecord(buf, off) == Ok(Read(Record(name.value, ttl.value, data.value), data.next))
  {
    hide ReadName, ReadU16, ReadU32, ReadData;
  }

  /** How an encoded record lies in a packet: owner name, ten fixed bytes, data. */
  lemma Layout(pre: Bytes, name: Bytes, fixed: Bytes, length: Bytes, data: Bytes)
    ensures pre + (name + (fixed + (length + data))) == (pre + name) + (fixed + (length + data))
    ensures pre + (name + (fixed + (length + data))) == pre + name + fixed + length + data
  {
  }

  lemma RecordLayout(pre: Bytes, refs: Refs, origin: Name, r: Record, e: Emit, packet: Bytes)
    returns (name: Emit, data: Emit, head: Bytes)
    requires EncodeRecord(|pre|, refs, origin, r) == Ok(e)
    requires pre + e.bytes <= packet && |packet| <= MAX_PACKET
    ensures var owner := Normalize(origin, r.name);
            NameLabels(owner).Ok? && EncodeCompressed(|pre|, refs, NonEmpty(owner)) == Ok(name)
    ensures EncodeData(|head|, name.refs, r.data) == Ok(data) && e.refs == data.refs
    ensures pre + name.bytes <= head && head + data.bytes == pre + e.bytes
    ensures |head| == |pre| + |name.bytes| + 10
    ensures var at := |pre| + |name.bytes|;
            && r.ttl >= 0
            && ReadU16(packet, at) == Ok(Read(DataType(r.data), at + 2))
            && ReadU16(packet, at + 2) == Ok(Read(CLASS_IN, at + 4))
            && ReadU32(packet, at + 4) == Ok(Read(r.ttl, at + 8))
            && ReadU16(packet, at + 8) == Ok(Read(|data.bytes|, at + 10))
  {
    hide NameLabels, EncodeCompressed, EncodeData, Normalize, ReadU16, ReadU32, RecordHead, U16, Has, DataType;
    var owner := Normalize(origin, r.name);
    NameLabelsValid(owner);
    name := EncodeCompressed(|pre|, refs, NonEmpty(owner)).value;
    data := EncodeData(|pre| + |name.bytes| + 10, name.refs, r.data).value;
    var tail := RecordHead(r) + (U16(|data.bytes|) + data.bytes);
    head := pre + name.bytes + RecordHead(r) + U16(|data.bytes|);
    Layout(pre, name.bytes, RecordHead(r), U16(|data.bytes|), data.bytes);
    PrefixHas(pre + name.bytes, tail, packet);
    HeadAt(packet, |pre| + |name.bytes|, r, |data.bytes|, data.bytes);
  }

  /** A record reads back in canonical form, in any packet that continues the
      buffer, and the suffix table stays right. */
  lemma RecordAt(pre: Bytes, refs: Refs, origin: Name, r: Record, e: Emit, packet: Bytes, u: iset<Labels>)
    requires RefsOk(pre, refs, u) && KeyInjective(u) && NamesIn(origin, r, u)
    requires EncodeRecord(|pre|, refs, origin, r) == Ok(e)
    requires pre + e.bytes <= packet && |packet| <= MAX_PACKET
    ensures RefsOk(pre + e.bytes, e.refs, u)
    ensures ReadRecord(packet, |pre|) == Ok(Read(CanonRecord(origin, r), |pre| + |e.bytes|))
  {
    hide RefsOk, KeyInjective, AllSuffixes, NameLabels, EncodeCompressed, EncodeData, EncodeRecord, Normalize,
         ReadName, ReadU16, ReadU32, ReadData, ReadRecord, DataType, CanonData;
    var name, data, head := RecordLayout(pre, refs, origin, r, e, packet);
    var owner, at := Normalize(origin, r.name), |pre| + |name.bytes|;
    CompressedAt(pre, refs, owner, name, packet, u);
    RefsExtend(pre + name.bytes, head, name.refs, u);
    DataAt(head, name.refs, r.data, data, packet, u);
    ReadRecordStep(packet, |pre|, Read(NameOf(NonEmpty(owner)), at), Read(DataType(r.data), at + 2),
                   Read(CLASS_IN, at + 4), Read(r.ttl, at + 8), Read(|data.bytes|, at + 10),
                   Read(CanonData(r.data), at + 10 + |data.bytes|));
  }

  lemma {:induction false} RecordsAt(pre: Bytes, refs: Refs, origin: Name, records: seq<Record>, e: Emit,
                                     packet: Bytes, u: iset<Labels>)
    requires RefsOk(pre, refs, u) && KeyInjective(u)
    requires forall r :: r in records ==> NamesIn(origin, r, u)
    requires EncodeRecords(|pre|, refs, origin, records) == Ok(e)
    requires pre + e.bytes <= packet && |packet| <= MAX_PACKET
    ensures ReadRecords(packet, |pre|, |records|) ==
            Ok(Read(CanonRecords(origin, records), |pre| + |e.bytes|))
    decreases |records|
  {
    hide RefsOk, KeyInjective, NamesIn, EncodeRecord, ReadRecord, CanonRecord;
    if records != [] {
      var first := EncodeRecord(|pre|, refs, origin, records[0]).value;
      var next := pre + first.bytes;
      var rest := EncodeRecords(|next|, first.refs, origin, records[1..]).value;
      assert pre + e.bytes == next + rest.bytes;
      assert next <= packet;
      RecordAt(pre, refs, origin, records[0], first, packet, u);
      RecordsAt(next, first.refs, origin, records[1..], rest, packet, u);
    }
  }

  // ------------------------------------------------------------ main theorem

  lemma HeaderFields(answers: nat, body: Bytes)
    requires answers <= 0xffff
    ensures var p := Header(answers) + body;
            && |Header(answers)| == 12
            && Be16(p[4], p[5]) == 0 && Be16(p[6], p[7]) == answers
            && Be16(p[8], p[9]) == 0 && Be16(p[10], p[11]) == 0
  {
    hide U16;
    var p := Header(answers) + body;
    assert p[4] == U16(0)[0] && p[5] == U16(0)[1];
    assert p[6] == U16(answers)[0] && p[7] == U16(answers)[1];
  }

  /** Encoding and then parsing gives the canonical records, whenever suffix
      keys tell the names of the packet apart. */
  lemma RoundTripOver(origin: Name, records: seq<Record>, packet: Bytes, u: iset<Labels>)
    requires EncodeResponse(origin, records) == Ok(packet)
    requires KeyInjective(u) && forall r :: r in records ==> NamesIn(origin, r, u)
    ensures ParseResponse(packet) == Ok(CanonRecords(origin, records))
  {
    hide EncodeRecords, ReadRecords, KeyInjective, NamesIn, Header, U16, Be16, CanonRecords;
    var body := EncodeRecords(12, map[], origin, records).value;
    HeaderFields(|records|, body.bytes);
    RecordsAt(Header(|records|), map[], origin, records, body, packet, u);
  }
}
