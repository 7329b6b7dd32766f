/** The suffix table joins labels with NUL, so two different names can share a
    key. The round trip holds exactly when no two suffixes of the names of a
    packet do; names without NUL never collide. */
module DnsCollisions {
  import opened Bytes
  import opened DnsMessage
  import opened DnsNames
  import opened DnsBindings
  import opened DnsRoundTrip

  // ------------------------------------------------------- names of a packet

  ghost predicate IsSuffix(a: Labels, labels: Labels) {
    |a| <= |labels| && labels[|labels| - |a|..] == a
  }

  /** The suffixes of `labels` that the table may hold. */
  ghost function Suffixes(labels: Labels): iset<Labels> {
    iset a: Labels | a != [] && IsSuffix(a, labels)
  }

  /** The suffixes of every name the record writes with compression. */
  ghost function RecordSuffixes(origin: Name, r: Record): iset<Labels> {
    Suffixes(NonEmpty(Normalize(origin, r.name))) +
    if r.data.Cname? then Suffixes(NonEmpty(r.data.cname)) else iset{}
  }

  ghost function PacketSuffixes(origin: Name, records: seq<Record>): iset<Labels> {
    if records == [] then iset{}
    else RecordSuffixes(origin, records[0]) + PacketSuffixes(origin, records[1..])
  }

  lemma SuffixStep(labels: Labels)
    requires labels != []
    ensures Suffixes(labels) == iset{labels} + Suffixes(labels[1..])
  {
    var tail := labels[1..];
    forall a: Labels | a in Suffixes(labels) ensures a == labels || a in Suffixes(tail) {
      if |a| < |labels| {
        assert tail[|tail| - |a|..] == labels[|labels| - |a|..];
      } else {
        assert labels[0..] == labels;
      }
    }
    forall a: Labels | a in Suffixes(tail) ensures a in Suffixes(labels) {
      assert tail[|tail| - |a|..] == labels[|labels| - |a|..];
    }
    assert labels[0..] == labels;
  }

  lemma {:induction false} SuffixesAll(labels: Labels, u: iset<Labels>)
    requires Suffixes(labels) <= u
    ensures AllSuffixes(labels, u)
  {
    if labels != [] {
      SuffixStep(labels);
      assert labels in Suffixes(labels);
      SuffixesAll(labels[1..], u);
    }
  }

  lemma {:induction false} SuffixKeyShorter(labels: Labels, a: Labels)
    requires ValidLabels(labels) && a in Suffixes(labels) && a != labels
    ensures |Key(a)| < |Key(labels)|
  {
    SuffixStep(labels);
    KeyShrinks(labels);
    if a != labels[1..] {
      SuffixKeyShorter(labels[1..], a);
    }
  }

  /** Suffixes of one name never collide: their keys differ in length. */
  lemma {:induction false} SuffixesInjective(labels: Labels)
    requires ValidLabels(labels)
    ensures KeyInjective(Suffixes(labels))
  {
    hide Key;
    if labels != [] {
      SuffixStep(labels);
      SuffixesInjective(labels[1..]);
      forall a | a in Suffixes(labels[1..]) ensures |Key(a)| < |Key(labels)| {
        assert |a| < |labels|;
        SuffixKeyShorter(labels, a);
      }
    }
  }

  ghost predicate SuffixClosed(u: iset<Labels>) {
    forall labels :: labels in u && labels != [] && labels[1..] != [] ==> labels[1..] in u
  }

  /** Every member's key is in the table. */
  ghost predicate Complete(refs: Refs, u: iset<Labels>) {
    forall labels :: labels in u ==> Key(labels) in refs
  }

  lemma {:induction false} ClosedSuffixes(labels: Labels, u: iset<Labels>)
    requires SuffixClosed(u) && labels in u
    ensures Suffixes(labels) <= u
  {
    if labels != [] {
      SuffixStep(labels);
      if labels[1..] != [] {
        ClosedSuffixes(labels[1..], u);
      } else {
        assert Suffixes([]) == iset{};
      }
    } else {
      assert Suffixes(labels) == iset{};
    }
  }

  lemma {:induction false} SuffixesClosed(labels: Labels)
    ensures SuffixClosed(Suffixes(labels))
  {
    if labels != [] {
      SuffixStep(labels);
      SuffixesClosed(labels[1..]);
      assert labels[1..] != [] ==> labels[1..] in Suffixes(labels[1..]) by {
        assert labels[1..][0..] == labels[1..];
      }
    }
  }

  // ------------------------------------------------- a collision is read back

  /** If a suffix's key is in the table, the name is written as a prefix of
      itself and a pointer to some name with the right key. */
  lemma {:induction false} EncodeHit(pre: Bytes, refs: Refs, labels: Labels, e: Emit, j: nat, u: iset<Labels>)
    returns (i: nat, found: Labels)
    requires RefsOk(pre, refs, u) && ValidLabels(labels)
    requires EncodeCompressed(|pre|, refs, labels) == Ok(e) && |pre + e.bytes| <= 0x4000
    requires j < |labels| && Key(labels[j..]) in refs
    ensures i <= j && found in u && Key(found) == Key(labels[i..])
    ensures NameAt(pre + e.bytes, |pre|, labels[..i] + found)
    decreases |labels|
  {
    hide U16, NameAt, Key, RefsOk;
    assert labels[0..] == labels;
    if Key(labels) in refs {
      i := 0;
      found := PointerHit(pre, refs, labels, e, u);
      assert labels[..0] + found == found;
    } else {
      assert j > 0;
      var tail := labels[1..];
      var head := [|labels[0]|] + labels[0];
      var next := pre + head;
      EncodeStep(|pre|, refs, labels);
      var rest := EncodeCompressed(|next|, refs, tail).value;
      assert e.bytes == head + rest.bytes;
      assert pre + e.bytes == next + rest.bytes;
      RefsExtend(pre, next, refs, u);
      assert tail[j - 1..] == labels[j..];
      i, found := EncodeHit(next, refs, tail, rest, j - 1, u);
      i := i + 1;
      assert labels[i..] == tail[i - 1..];
      HitLabel(pre, labels, rest.bytes, i, found);
    }
  }

  lemma HitLabel(pre: Bytes, labels: Labels, rest: Bytes, i: nat, found: Labels)
    requires 0 < i <= |labels| && 0 < |labels[0]| <= 63
    requires NameAt(pre + ([|labels[0]|] + labels[0]) + rest, |pre| + 1 + |labels[0]|,
                    labels[1..][..i - 1] + found)
    ensures NameAt(pre + ([|labels[0]|] + labels[0]) + rest, |pre|, labels[..i] + found)
  {
    hide NameAt, NameEnd;
    var head := [|labels[0]|] + labels[0];
    var buf := pre + head + rest;
    assert buf[|pre|..|pre| + |head|] == head;
    var m := labels[..i] + found;
    assert m[0] == labels[0] && m[1..] == labels[1..][..i - 1] + found;
    LabelAt(buf, |pre|, m);
  }

  lemma PointerHit(pre: Bytes, refs: Refs, labels: Labels, e: Emit, u: iset<Labels>) returns (found: Labels)
    requires RefsOk(pre, refs, u) && labels != [] && Key(labels) in refs
    requires EncodeCompressed(|pre|, refs, labels) == Ok(e) && |pre + e.bytes| <= 0x4000
    ensures found in u && Key(found) == Key(labels)
    ensures NameAt(pre + e.bytes, |pre|, found)
  {
    hide U16;
    var target := refs[Key(labels)];
    found :| found in u && Denotes(pre, target, Key(labels), found);
    PointerBytes(target);
    var buf := pre + e.bytes;
    NameAtExtends(pre, buf, target, found);
    assert buf[|pre|] == e.bytes[0] && buf[|pre| + 1] == e.bytes[1];
  }

  /** A reader that answers at all answers what the bytes denote. */
  lemma {:induction false} ScanNameSound(buf: Bytes, off: nat, labels: Labels, seen: set<nat>, size: nat)
    requires NameAt(buf, off, labels) && ScanName(buf, off, seen, size).Ok?
    ensures ScanName(buf, off, seen, size).value.value == labels
    decreases |labels|, off
  {
    var b := buf[off];
    if b >= 0xc0 {
      var target := Be16(b, buf[off + 1]) % 0x4000;
      ScanNameSound(buf, target, labels, seen + {target}, size);
    } else if b != 0 {
      ScanNameSound(buf, off + 1 + b, labels[1..], seen, size + b + 1);
      assert labels == [labels[0]] + labels[1..];
    }
  }

  lemma {:induction false} ScanNameEnd(buf: Bytes, off: nat, seen: set<nat>, size: nat)
    requires ScanName(buf, off, seen, size).Ok?
    ensures ScanName(buf, off, seen, size).value.next == NameEnd(buf, off)
    decreases |buf| - off
  {
    if buf[off] < 0xc0 && buf[off] != 0 {
      ScanNameEnd(buf, off + 1 + buf[off], seen, size + buf[off] + 1);
    }
  }

  lemma ReadNameEnd(buf: Bytes, off: nat)
    requires ReadName(buf, off).Ok?
    ensures ReadName(buf, off).value.next == NameEnd(buf, off)
  {
    ScanNameEnd(buf, off, {}, 0);
  }

  /** Adding a name keeps keys apart if the name reads back as written. */
  lemma NameForces(pre: Bytes, refs: Refs, labels: Labels, e: Emit, packet: Bytes, u: iset<Labels>)
    requires RefsOk(pre, refs, u) && KeyInjective(u) && Complete(refs, u) && SuffixClosed(u)
    requires ValidLabels(labels)
    requires EncodeCompressed(|pre|, refs, labels) == Ok(e)
    requires pre + e.bytes <= packet && |packet| <= 0x4000
    requires var r := ReadName(packet, |pre|); r.Ok? && r.value.value == NameOf(labels)
    ensures KeyInjective(u + Suffixes(labels))
  {
    hide NameAt, Key, RefsOk, EncodeCompressed;
    SuffixesInjective(labels);
    forall a, b | a in Suffixes(labels) && b in u && Key(a) == Key(b) ensures a == b {
      var j := |labels| - |a|;
      assert labels[j..] == a;
      var i, found := EncodeHit(pre, refs, labels, e, j, u);
      var m := labels[..i] + found;
      NameAtExtends(pre + e.bytes, packet, |pre|, m);
      ScanNameSound(packet, |pre|, m, {}, 0);
      assert m == labels;
      assert found == m[i..] == labels[i..];
      assert labels[i..][j - i..] == a;
      assert IsSuffix(a, labels[i..]);
      ClosedSuffixes(labels[i..], u);
    }
  }

  lemma RefsOrigin(buf: Bytes, refs: Refs, k: Bytes, u: iset<Labels>) returns (a: Labels)
    requires RefsOk(buf, refs, u) && k in refs
    ensures a in u && Key(a) == k
  {
    a :| a in u && Denotes(buf, refs[k], k, a);
  }

  /** After writing a name, every suffix of it is in the table. */
  lemma {:induction false} EncodeComplete(buf: Bytes, off: nat, refs: Refs, labels: Labels, e: Emit, u: iset<Labels>)
    requires RefsOk(buf, refs, u) && Complete(refs, u) && SuffixClosed(u)
    requires KeyInjective(u + Suffixes(labels)) && ValidLabels(labels)
    requires EncodeCompressed(off, refs, labels) == Ok(e)
    ensures Complete(e.refs, u + Suffixes(labels))
    decreases |labels|
  {
    hide RefsOk, Key;
    if labels == [] {
      assert Suffixes(labels) == iset{};
    } else {
      SuffixStep(labels);
      assert labels in Suffixes(labels);
      if Key(labels) in refs {
        var a := RefsOrigin(buf, refs, Key(labels), u);
        assert a == labels;
        ClosedSuffixes(labels, u);
      } else {
        EncodeStep(off, refs, labels);
        var rest := EncodeCompressed(off + 1 + |labels[0]|, refs, labels[1..]).value;
        EncodeComplete(buf, off + 1 + |labels[0]|, refs, labels[1..], rest, u);
      }
    }
  }

  // --------------------------------------------------- records and the packet

  /** What holds between records: the table is right, complete and free of
      collisions over the suffixes written so far. */
  ghost predicate Sound(pre: Bytes, refs: Refs, u: iset<Labels>) {
    RefsOk(pre, refs, u) && KeyInjective(u) && Complete(refs, u) && SuffixClosed(u)
  }

  lemma ClosedUnion(u: iset<Labels>, v: iset<Labels>)
    requires SuffixClosed(u) && SuffixClosed(v)
    ensures SuffixClosed(u + v)
  {
  }

  lemma RefsWiden(buf: Bytes, refs: Refs, u: iset<Labels>, v: iset<Labels>)
    requires RefsOk(buf, refs, u) && u <= v
    ensures RefsOk(buf, refs, v)
  {
    forall k | k in refs ensures refs[k] < |buf| && exists a :: a in v && Denotes(buf, refs[k], k, a) {
      var a :| a in u && Denotes(buf, refs[k], k, a);
      assert a in v;
    }
  }

  /** One name that reads back as written carries `Sound` on. */
  lemma NameSound(pre: Bytes, refs: Refs, labels: Labels, e: Emit, packet: Bytes, u: iset<Labels>)
    requires Sound(pre, refs, u) && ValidLabels(labels)
    requires EncodeCompressed(|pre|, refs, labels) == Ok(e)
    requires pre + e.bytes <= packet && |packet| <= MAX_PACKET
    requires var r := ReadName(packet, |pre|); r.Ok? && r.value.value == NameOf(labels)
    ensures Sound(pre + e.bytes, e.refs, u + Suffixes(labels))
    ensures ReadName(packet, |pre|).value.next == |pre| + |e.bytes|
  {
    hide RefsOk, KeyInjective, Complete, SuffixClosed, AllSuffixes, EncodeCompressed, ReadName, Suffixes,
         NameAt, NameEnd;
    var v := u + Suffixes(labels);
    NameForces(pre, refs, labels, e, packet, u);
    EncodeComplete(pre, |pre|, refs, labels, e, u);
    SuffixesClosed(labels);
    ClosedUnion(u, Suffixes(labels));
    RefsWiden(pre, refs, u, v);
    SuffixesAll(labels, v);
    EncodeCompressedOk(pre, refs, labels, e, v);
    NameAtExtends(pre + e.bytes, packet, |pre|, labels);
    ReadNameEnd(packet, |pre|);
  }

  lemma SoundExtend(pre: Bytes, longer: Bytes, refs: Refs, u: iset<Labels>)
    requires Sound(pre, refs, u) && pre <= longer
    ensures Sound(longer, refs, u)
  {
    RefsExtend(pre, longer, refs, u);
  }

  /** One record that reads back in canonical form carries `Sound` on. */
  lemma RecordSound(pre: Bytes, refs: Refs, origin: Name, r: Record, e: Emit, packet: Bytes, u: iset<Labels>)
    requires Sound(pre, refs, u)
    requires EncodeRecord(|pre|, refs, origin, r) == Ok(e)
    requires pre + e.bytes <= packet && |packet| <= MAX_PACKET
    requires var c := ReadRecord(packet, |pre|); c.Ok? && c.value.value == CanonRecord(origin, r)
    ensures Sound(pre + e.bytes, e.refs, u + RecordSuffixes(origin, r))
    ensures ReadRecord(packet, |pre|).value.next == |pre| + |e.bytes|
  {
    hide Sound, NameLabels, EncodeCompressed, EncodeData, EncodeRecord, Normalize,
         ReadName, ReadU16, ReadU32, ReadData, DataType, CanonData, Suffixes;
    var name, data, head := RecordLayout(pre, refs, origin, r, e, packet);
    var owner := NonEmpty(Normalize(origin, r.name));
    NameLabelsValid(Normalize(origin, r.name));
    NameSound(pre, refs, owner, name, packet, u);
    var v := u + Suffixes(owner);
    SoundExtend(pre + name.bytes, head, name.refs, v);
    DataSound(head, name.refs, r.data, data, packet, v);
    assert u + RecordSuffixes(origin, r) ==
           v + if r.data.Cname? then Suffixes(NonEmpty(r.data.cname)) else iset{};
  }

  lemma DataSound(pre: Bytes, refs: Refs, d: Data, e: Emit, packet: Bytes, u: iset<Labels>)
    requires Sound(pre, refs, u)
    requires EncodeData(|pre|, refs, d) == Ok(e)
    requires pre + e.bytes <= packet && |packet| <= MAX_PACKET
    requires var c := ReadData(packet, DataType(d), |pre|, |pre| + |e.bytes|);
             c.Ok? && c.value.value == CanonData(d)
    ensures Sound(pre + e.bytes, e.refs, u + if d.Cname? then Suffixes(NonEmpty(d.cname)) else iset{})
  {
    hide Sound, EncodeCompressed, ReadName, Suffixes;
    if d.Cname? {
      NameLabelsValid(d.cname);
      NameSound(pre, refs, NonEmpty(d.cname), e, packet, u);
    } else {
      SoundExtend(pre, pre + e.bytes, refs, u);
      assert u + iset{} == u;
    }
  }

  lemma {:induction false} RecordsSound(pre: Bytes, refs: Refs, origin: Name, records: seq<Record>, e: Emit,
                                        packet: Bytes, u: iset<Labels>)
    requires Sound(pre, refs, u)
    requires EncodeRecords(|pre|, refs, origin, records) == Ok(e)
    requires pre + e.bytes <= packet && |packet| <= MAX_PACKET
    requires var c := ReadRecords(packet, |pre|, |records|);
             c.Ok? && c.value.value == CanonRecords(origin, records)
    ensures KeyInjective(u + PacketSuffixes(origin, records))
    decreases |records|
  {
    hide EncodeRecord, ReadRecord, CanonRecord, RecordSuffixes, RefsOk, KeyInjective, Complete, SuffixClosed;
    if records == [] {
      assert u + iset{} == u;
    } else {
      var first := EncodeRecord(|pre|, refs, origin, records[0]).value;
      var next := pre + first.bytes;
      var rest := EncodeRecords(|next|, first.refs, origin, records[1..]).value;
      assert pre + e.bytes == next + rest.bytes;
      CanonHead(origin, records, ReadRecord(packet, |pre|).value.value,
                ReadRecords(packet, ReadRecord(packet, |pre|).value.next, |records| - 1).value.value);
      RecordSound(pre, refs, origin, records[0], first, packet, u);
      var v := u + RecordSuffixes(origin, records[0]);
      RecordsSound(next, first.refs, origin, records[1..], rest, packet, v);
      assert v + PacketSuffixes(origin, records[1..]) == u + PacketSuffixes(origin, records);
    }
  }

  lemma CanonHead(origin: Name, records: seq<Record>, first: Record, rest: seq<Record>)
    requires records != [] && [first] + rest == CanonRecords(origin, records)
    ensures first == CanonRecord(origin, records[0]) && rest == CanonRecords(origin, records[1..])
  {
    var c := CanonRecords(origin, records);
    assert first == c[0] && rest == c[1..];
  }

  lemma {:induction false} PacketNames(origin: Name, records: seq<Record>, r: Record)
    requires r in records
    ensures RecordSuffixes(origin, r) <= PacketSuffixes(origin, records)
  {
    if r != records[0] {
      PacketNames(origin, records[1..], r);
    }
  }

  /** An accepted packet parses to its records in canonical form if and only if
      no two different suffixes of its names have the same key. */
  lemma RoundTripIff(origin: Name, records: seq<Record>, packet: Bytes)
    requires EncodeResponse(origin, records) == Ok(packet)
    ensures ParseResponse(packet) == Ok(CanonRecords(origin, records)) <==>
            KeyInjective(PacketSuffixes(origin, records))
  {
    hide EncodeRecords, ReadRecords, KeyInjective, Header, U16, Be16, CanonRecords, Suffixes;
    var u := PacketSuffixes(origin, records);
    var body := EncodeRecords(12, map[], origin, records).value;
    HeaderFields(|records|, body.bytes);
    if KeyInjective(u) {
      forall r | r in records ensures NamesIn(origin, r, u) {
        PacketNames(origin, records, r);
        SuffixesAll(NonEmpty(Normalize(origin, r.name)), u);
        if r.data.Cname? {
          SuffixesAll(NonEmpty(r.data.cname), u);
        }
      }
      RoundTripOver(origin, records, packet, u);
    }
    if ParseResponse(packet) == Ok(CanonRecords(origin, records)) {
      EmptySound(Header(|records|));
      RecordsSound(Header(|records|), map[], origin, records, body, packet, iset{});
      assert iset{} + u == u;
    }
  }

  lemma EmptySound(buf: Bytes)
    ensures Sound(buf, map[], iset{})
  {
  }

  // ---------------------------------------------------------- NUL-free names

  ghost predicate NulFree(labels: Labels) {
    forall l :: l in labels ==> l != [] && 0 !in l
  }

  lemma NulFreeTail(labels: Labels)
    requires NulFree(labels) && labels != []
    ensures NulFree(labels[1..])
  {
    assert forall l :: l in labels[1..] ==> l in labels;
  }

  /** The first label ends at the first NUL of the key, or at its end. */
  lemma KeyHead(a: Labels)
    requires NulFree(a) && a != []
    ensures |a[0]| <= |Key(a)| && Key(a)[..|a[0]|] == a[0]
    ensures forall i :: 0 <= i < |a[0]| ==> Key(a)[i] != 0
    ensures |a| == 1 ==> |Key(a)| == |a[0]|
    ensures |a| > 1 ==> |Key(a)| > |a[0]| && Key(a)[|a[0]|] == 0 && Key(a)[|a[0]| + 1..] == Key(a[1..])
  {
    assert a[0] in a;
    forall i | 0 <= i < |a[0]| ensures Key(a)[i] != 0 {
      assert Key(a)[i] == a[0][i] && a[0][i] in a[0];
    }
  }

  lemma KeyEmpty(a: Labels)
    requires NulFree(a)
    ensures Key(a) == [] <==> a == []
  {
    if a != [] {
      KeyHead(a);
      assert a[0] in a;
    }
  }

  lemma {:induction false} KeyUnique(a: Labels, b: Labels)
    requires NulFree(a) && NulFree(b) && Key(a) == Key(b)
    ensures a == b
  {
    KeyEmpty(a);
    KeyEmpty(b);
    if a != [] {
      KeyHead(a);
      KeyHead(b);
      assert |a[0]| == |b[0]|;
      if |a| > 1 {
        NulFreeTail(a);
        NulFreeTail(b);
        KeyUnique(a[1..], b[1..]);
      }
      assert a == [a[0]] + a[1..] && b == [b[0]] + b[1..];
    }
  }

  ghost predicate NulFreeRecord(origin: Name, r: Record) {
    NulFree(NonEmpty(Normalize(origin, r.name))) && (r.data.Cname? ==> NulFree(NonEmpty(r.data.cname)))
  }

  /** Every accepted list of records whose names hold no NUL survives encoding
      and parsing in canonical form. */
  lemma RoundTrip(origin: Name, records: seq<Record>)
    requires forall r :: r in records ==> NulFreeRecord(origin, r)
    requires EncodeResponse(origin, records).Ok?
    ensures ParseResponse(EncodeResponse(origin, records).value) == Ok(CanonRecords(origin, records))
  {
    hide EncodeResponse, ParseResponse, CanonRecords, Key, Normalize, AllSuffixes;
    var u := iset labels: Labels | NulFree(labels);
    forall a, b | a in u && b in u && Key(a) == Key(b) ensures a == b {
      KeyUnique(a, b);
    }
    forall r | r in records ensures NamesIn(origin, r, u) {
      NulFreeSuffixes(NonEmpty(Normalize(origin, r.name)), u);
      if r.data.Cname? {
        NulFreeSuffixes(NonEmpty(r.data.cname), u);
      }
    }
    RoundTripOver(origin, records, EncodeResponse(origin, records).value, u);
  }

  lemma {:induction false} NulFreeSuffixes(labels: Labels, u: iset<Labels>)
    requires NulFree(labels) && forall a: Labels :: NulFree(a) ==> a in u
    ensures AllSuffixes(labels, u)
  {
    if labels != [] {
      NulFreeTail(labels);
      NulFreeSuffixes(labels[1..], u);
    }
  }

  // ---------------------------------------------------------- with NUL: fails

  /** The owner names "a NUL b" and "a.b", both under the origin "o". */
  const ORIGIN: Name := [[111]]
  const WITH_NUL: Labels := [[97, 0, 98], [111]]
  const WITHOUT: Labels := [[97], [98], [111]]
  const FIRST := Record([[97, 0, 98]], 0, A([1, 2, 3, 4]))
  const SECOND := Record([[97], [98]], 0, A([1, 2, 3, 4]))

  lemma CollidingKeys()
    ensures Key(WITH_NUL) == [97, 0, 98, 0, 111] == Key(WITHOUT)
  {
    var t: Labels := [[98], [111]];
    assert WITHOUT[1..] == t && t[1..] == [[111]] == WITH_NUL[1..];
    assert Key(t) == [98, 0, 111];
  }

  lemma Accepted(name: Name, parts: Labels)
    requires name == parts && NameSize(parts) <= 254
    requires forall l :: l in parts ==> 0 < |l| <= 63
    ensures NonEmpty(name) == parts && NameLabels(name) == Ok(parts)
  {
    AllNonEmpty(parts);
  }

  lemma {:induction false} AllNonEmpty(parts: Labels)
    requires forall l :: l in parts ==> l != []
    ensures NonEmpty(parts) == parts
  {
    if parts != [] {
      assert forall l :: l in parts[1..] ==> l in parts;
      assert parts[0] in parts;
      AllNonEmpty(parts[1..]);
    }
  }

  lemma CollidingNames()
    ensures NameLabels(Normalize(ORIGIN, FIRST.name)) == Ok(WITH_NUL)
    ensures NameLabels(Normalize(ORIGIN, SECOND.name)) == Ok(WITHOUT)
    ensures NonEmpty(Normalize(ORIGIN, FIRST.name)) == WITH_NUL
    ensures NonEmpty(Normalize(ORIGIN, SECOND.name)) == WITHOUT
  {
    hide NameLabels, NonEmpty;
    assert WITH_NUL[1..] == [[111]] && WITHOUT[1..] == [[98], [111]];
    assert NameSize([[98], [111]]) == 4;
    assert NameSize(WITH_NUL) == 6 && NameSize(WITHOUT) == 6;
    Accepted(Normalize(ORIGIN, FIRST.name), WITH_NUL);
    Accepted(Normalize(ORIGIN, SECOND.name), WITHOUT);
  }

  lemma FirstWritten() returns (refs: Refs)
    ensures EncodeCompressed(12, map[], WITH_NUL) == Ok(Emit([3, 97, 0, 98, 1, 111, 0], refs))
    ensures Key(WITHOUT) in refs && refs[Key(WITHOUT)] == 12
  {
    CollidingKeys();
    var t := WITH_NUL[1..];
    var m: Refs := map[[97, 0, 98, 0, 111] := 12];
    assert |t| == 1 && t[0] == [111] && |t[1..]| == 0 && Key(t) == [111];
    refs := m[[111] := 16];
    assert EncodeCompressed(18, refs, t[1..]) == Ok(Emit([0], refs));
    assert [1] + [111] + [0] == [1, 111, 0];
    assert EncodeCompressed(16, m, t) == Ok(Emit([1, 111, 0], refs));
    assert [3] + [97, 0, 98] + [1, 111, 0] == [3, 97, 0, 98, 1, 111, 0];
  }

  lemma CollidingPacket() returns (packet: Bytes)
    ensures EncodeResponse(ORIGIN, [FIRST, SECOND]) == Ok(packet)
  {
    hide Key, Normalize, NonEmpty, NameLabels, U16, U32;
    CollidingNames();
    var refs := FirstWritten();
    var r1 := EncodeRecord(12, map[], ORIGIN, FIRST);
    assert r1.Ok? && r1.value.refs == refs && |r1.value.bytes| == 21;
    var r2 := EncodeRecord(33, refs, ORIGIN, SECOND);
    assert r2.Ok? && |r2.value.bytes| == 16;
    assert [FIRST, SECOND][1..] == [SECOND] && [SECOND][1..] == [];
    assert EncodeRecords(33, refs, ORIGIN, [SECOND]) == Ok(Emit(r2.value.bytes + [], r2.value.refs));
    packet := EncodeResponse(ORIGIN, [FIRST, SECOND]).value;
  }

  /** Names with NUL can share a key: the second record is read back with the
      first one's name. */
  lemma NulCollision()
    ensures EncodeResponse(ORIGIN, [FIRST, SECOND]).Ok?
    ensures ParseResponse(EncodeResponse(ORIGIN, [FIRST, SECOND]).value) !=
            Ok(CanonRecords(ORIGIN, [FIRST, SECOND]))
  {
    hide Key, Normalize, NonEmpty, EncodeResponse, ParseResponse, CanonRecords;
    var packet := CollidingPacket();
    CollidingNames();
    CollidingKeys();
    assert WITH_NUL[0..] == WITH_NUL && WITHOUT[0..] == WITHOUT;
    PacketNames(ORIGIN, [FIRST, SECOND], FIRST);
    PacketNames(ORIGIN, [FIRST, SECOND], SECOND);
    assert WITH_NUL in RecordSuffixes(ORIGIN, FIRST) && WITHOUT in RecordSuffixes(ORIGIN, SECOND);
    RoundTripIff(ORIGIN, [FIRST, SECOND], packet);
  }
}
