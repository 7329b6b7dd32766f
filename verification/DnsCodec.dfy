/** The writer as it runs: a growing buffer whose record lengths are patched in
    afterwards, and a suffix table that is updated while a name is written. Every
    operation is proved against the format in DnsMessage. */
module DnsCodec {
  import opened Bytes
  import opened DnsMessage
  import opened DnsBindings

  // ------------------------------------------------------------------ writing

  /** `after` is `before` and what `spec` emits; a failure abandons the buffer. */
  ghost predicate Wrote(before: Bytes, after: Bytes, r: Result<Refs>, spec: Result<Emit>) {
    match spec
    case Err => r.Err?
    case Ok(e) => r == Ok(e.refs) && after == before + e.bytes
  }

  ghost predicate WroteBytes(before: Bytes, after: Bytes, r: Result<()>, spec: Result<Bytes>) {
    match spec
    case Err => r.Err?
    case Ok(bytes) => r.Ok? && after == before + bytes
  }

  class Writer {
    var bytes: Bytes

    constructor ()
      ensures bytes == []
    {
      bytes := [];
    }

    method PutU8(value: int) returns (r: Result<()>)
      modifies this
      ensures WroteBytes(old(bytes), bytes, r, if 0 <= value <= 0xff then Ok([value]) else Err)
    {
      if !(0 <= value <= 0xff) {
        return Err;
      }
      bytes := bytes + [value];
      r := Ok(());
    }

    method PutU16(value: int) returns (r: Result<()>)
      modifies this
      ensures WroteBytes(old(bytes), bytes, r, if 0 <= value <= 0xffff then Ok(U16(value)) else Err)
    {
      if !(0 <= value <= 0xffff) {
        return Err;
      }
      bytes := bytes + U16(value);
      r := Ok(());
    }

    method PutU32(value: int) returns (r: Result<()>)
      modifies this
      ensures WroteBytes(old(bytes), bytes, r, if 0 <= value <= 0xffff_ffff then Ok(U32(value)) else Err)
    {
      if !(0 <= value <= 0xffff_ffff) {
        return Err;
      }
      bytes := bytes + U32(value);
      r := Ok(());
    }

    method Put(value: Bytes)
      modifies this
      ensures bytes == old(bytes) + value
    {
      bytes := bytes + value;
    }

    /** Overwrites two bytes with the low sixteen bits of `value`. */
    method SetU16(offset: nat, value: nat)
      requires offset + 2 <= |bytes|
      modifies this
      ensures bytes == old(bytes)[..offset] + U16(value) + old(bytes)[offset + 2..]
    {
      bytes := bytes[offset := U16(value)[0]];
      bytes := bytes[offset + 1 := U16(value)[1]];
    }
  }

  /** What is still to be written after `done` completes the whole name. */
  ghost predicate NameRest(done: Bytes, rest: Result<Emit>, whole: Result<Emit>) {
    match rest
    case Err => whole.Err?
    case Ok(e) => whole == Ok(Emit(done + e.bytes, e.refs))
  }

  lemma NameRestStep(done: Bytes, head: Bytes, now: Result<Emit>, rest: Result<Emit>, whole: Result<Emit>)
    requires NameRest(done, now, whole)
    requires match rest case Err => now.Err? case Ok(e) => now == Ok(Emit(head + e.bytes, e.refs))
    ensures NameRest(done + head, rest, whole)
  {
    if rest.Ok? {
      assert done + head + rest.value.bytes == done + (head + rest.value.bytes);
    }
  }

  method WriteCompressedName(w: Writer, table: Refs, name: Name) returns (r: Result<Refs>)
    modifies w
    ensures Wrote(old(w.bytes), w.bytes, r,
                  match NameLabels(name)
                  case Err => Err
                  case Ok(labels) => EncodeCompressed(|old(w.bytes)|, table, labels))
  {
    var labels :- NameLabels(name);
    r := WriteLabels(w, table, labels);
  }

  /** The loop of `writeCompressedName`. */
  method WriteLabels(w: Writer, table: Refs, labels: Labels) returns (r: Result<Refs>)
    modifies w
    ensures Wrote(old(w.bytes), w.bytes, r, EncodeCompressed(|old(w.bytes)|, table, labels))
  {
    hide Key, U16, Wrote;
    ghost var start := w.bytes;
    ghost var whole := EncodeCompressed(|start|, table, labels);
    ghost var done: Bytes := [];
    var refs: Refs := table;
    var i := 0;
    assert labels[0..] == labels;
    assert whole.Ok? ==> [] + whole.value.bytes == whole.value.bytes;
    while i < |labels|
      invariant 0 <= i <= |labels|
      invariant w.bytes == start + done
      invariant NameRest(done, EncodeCompressed(|w.bytes|, refs, labels[i..]), whole)
    {
      var suffix := labels[i..];
      assert suffix[0] == labels[i] && suffix[1..] == labels[i + 1..];
      var key := Key(suffix);
      if key in refs {
        r := WritePointer(w, refs, suffix, start, done, whole);
        return;
      }
      ghost var now := EncodeCompressed(|w.bytes|, refs, suffix);
      var next: Refs := refs[key := |w.bytes|];
      refs := next;
      var length := w.PutU8(|labels[i]|);
      if length.Err? {
        WroteNone(start, w.bytes, whole);
        return Err;
      }
      w.Put(labels[i]);
      ghost var head := [|labels[i]|] + labels[i];
      assert w.bytes == start + (done + head);
      NameRestStep(done, head, now, EncodeCompressed(|w.bytes|, refs, labels[i + 1..]), whole);
      done := done + head;
      i := i + 1;
    }
    assert labels[|labels|..] == [];
    var _ := w.PutU8(0);
    WroteAll(start, w.bytes, done, [0], refs, whole);
    r := Ok(refs);
  }

  method WritePointer(w: Writer, refs: Refs, suffix: Labels,
                      ghost start: Bytes, ghost done: Bytes, ghost whole: Result<Emit>)
    returns (r: Result<Refs>)
    requires suffix != [] && Key(suffix) in refs && w.bytes == start + done
    requires NameRest(done, EncodeCompressed(|w.bytes|, refs, suffix), whole)
    modifies w
    ensures Wrote(start, w.bytes, r, whole)
  {
    hide Key, U16;
    var target := refs[Key(suffix)];
    var value := if target <= 0xffff then 0xc000 + target % 0x4000 else target;
    var pointer := w.PutU16(value);
    if pointer.Err? {
      return Err;
    }
    assert start + done + U16(value) == start + (done + U16(value));
    r := Ok(refs);
  }

  lemma WroteNone(start: Bytes, after: Bytes, whole: Result<Emit>)
    requires whole.Err?
    ensures Wrote(start, after, Err, whole)
  {
  }

  lemma WroteAll(start: Bytes, after: Bytes, done: Bytes, last: Bytes, refs: Refs, whole: Result<Emit>)
    requires after == start + done + last && whole == Ok(Emit(done + last, refs))
    ensures Wrote(start, after, Ok(refs), whole)
  {
    assert start + done + last == start + (done + last);
  }

  // ------------------------------------------------------------- plain pieces

  ghost predicate Rest(done: Bytes, rest: Result<Bytes>, whole: Result<Bytes>) {
    match rest
    case Err => whole.Err?
    case Ok(bytes) => whole == Ok(done + bytes)
  }

  lemma RestStart(whole: Result<Bytes>)
    ensures Rest([], whole, whole)
  {
    assert whole.Ok? ==> [] + whole.value == whole.value;
  }

  lemma RestStep(done: Bytes, head: Bytes, now: Result<Bytes>, rest: Result<Bytes>, whole: Result<Bytes>)
    requires Rest(done, now, whole)
    requires match rest case Err => now.Err? case Ok(bytes) => now == Ok(head + bytes)
    ensures Rest(done + head, rest, whole)
  {
    if rest.Ok? {
      assert done + head + rest.value == done + (head + rest.value);
    }
  }

  method WriteName(w: Writer, labels: Labels) returns (r: Result<()>)
    modifies w
    ensures WroteBytes(old(w.bytes), w.bytes, r, EncodePlain(labels))
  {
    ghost var whole := EncodePlain(labels);
    ghost var done: Bytes := [];
    RestStart(whole);
    assert labels[0..] == labels;
    for i := 0 to |labels|
      invariant w.bytes == old(w.bytes) + done
      invariant Rest(done, EncodePlain(labels[i..]), whole)
    {
      ghost var head := [|labels[i]|] + labels[i];
      assert labels[i..][0] == labels[i] && labels[i..][1..] == labels[i + 1..];
      var _ :- w.PutU8(|labels[i]|);
      w.Put(labels[i]);
      RestStep(done, head, EncodePlain(labels[i..]), EncodePlain(labels[i + 1..]), whole);
      done := done + head;
    }
    assert labels[|labels|..] == [];
    r := w.PutU8(0);
  }

  method WriteChunks(w: Writer, chunks: seq<Bytes>) returns (r: Result<()>)
    modifies w
    ensures WroteBytes(old(w.bytes), w.bytes, r, EncodeChunks(chunks))
  {
    ghost var whole := EncodeChunks(chunks);
    ghost var done: Bytes := [];
    RestStart(whole);
    assert chunks[0..] == chunks;
    for i := 0 to |chunks|
      invariant w.bytes == old(w.bytes) + done
      invariant Rest(done, EncodeChunks(chunks[i..]), whole)
    {
      assert chunks[i..][0] == chunks[i] && chunks[i..][1..] == chunks[i + 1..];
      var _ :- w.PutU8(|chunks[i]|);
      w.Put(chunks[i]);
      ChunkStep(done, chunks[i..], whole);
      done := done + ([|chunks[i]|] + chunks[i]);
    }
    assert chunks[|chunks|..] == [];
    r := Ok(());
  }

  lemma ChunkStep(done: Bytes, chunks: seq<Bytes>, whole: Result<Bytes>)
    requires chunks != [] && |chunks[0]| <= 255 && Rest(done, EncodeChunks(chunks), whole)
    ensures Rest(done + ([|chunks[0]|] + chunks[0]), EncodeChunks(chunks[1..]), whole)
  {
    var head, rest := [|chunks[0]|] + chunks[0], EncodeChunks(chunks[1..]);
    assert rest.Ok? ==> [|chunks[0]|] + (chunks[0] + rest.value) == head + rest.value;
    RestStep(done, head, EncodeChunks(chunks), rest, whole);
  }

  method WriteKeys(w: Writer, keys: seq<int>) returns (r: Result<()>)
    modifies w
    ensures WroteBytes(old(w.bytes), w.bytes, r, EncodeKeys(keys))
  {
    hide U16;
    ghost var whole := EncodeKeys(keys);
    ghost var done: Bytes := [];
    RestStart(whole);
    assert keys[0..] == keys;
    for i := 0 to |keys|
      invariant w.bytes == old(w.bytes) + done
      invariant Rest(done, EncodeKeys(keys[i..]), whole)
    {
      assert keys[i..][0] == keys[i] && keys[i..][1..] == keys[i + 1..];
      var _ :- w.PutU16(keys[i]);
      RestStep(done, U16(keys[i]), EncodeKeys(keys[i..]), EncodeKeys(keys[i + 1..]), whole);
      done := done + U16(keys[i]);
    }
    assert keys[|keys|..] == [];
    r := Ok(());
  }

  method WriteFixed(w: Writer, items: seq<Bytes>, width: nat) returns (r: Result<()>)
    modifies w
    ensures WroteBytes(old(w.bytes), w.bytes, r, EncodeFixed(items, width))
  {
    ghost var whole := EncodeFixed(items, width);
    ghost var done: Bytes := [];
    RestStart(whole);
    assert items[0..] == items;
    for i := 0 to |items|
      invariant w.bytes == old(w.bytes) + done
      invariant Rest(done, EncodeFixed(items[i..], width), whole)
    {
      assert items[i..][0] == items[i] && items[i..][1..] == items[i + 1..];
      if |items[i]| != width {
        return Err;
      }
      w.Put(items[i]);
      RestStep(done, items[i], EncodeFixed(items[i..], width), EncodeFixed(items[i + 1..], width), whole);
      done := done + items[i];
    }
    assert items[|items|..] == [];
    r := Ok(());
  }

  // -------------------------------------------------------- service bindings

  method WriteServiceParam(w: Writer, p: Param) returns (r: Result<()>)
    modifies w
    ensures WroteBytes(old(w.bytes), w.bytes, r, EncodeParam(p))
  {
    hide U16;
    match p
    case Mandatory(keys) => r := WriteKeys(w, SortKeys(keys));
    case Alpn(ids) => r := WriteChunks(w, ids);
    case NoDefaultAlpn => r := Ok(());
    case Port(port) => r := w.PutU16(port);
    case Ipv4Hint(addresses) => r := WriteFixed(w, addresses, 4);
    case Ech(data) =>
      var _ :- w.PutU16(|data|);
      w.Put(data);
      r := Ok(());
    case Ipv6Hint(addresses) => r := WriteFixed(w, addresses, 16);
    case Unknown(_, value) =>
      w.Put(value);
      r := Ok(());
  }

  /** Writing a length of zero, the value, and then the length over it. */
  lemma Patched(before: Bytes, head: Bytes, value: Bytes, after: Bytes)
    requires var b := before + head + U16(0) + value;
             after == b[..|before + head|] + U16(|value|) + b[|before + head| + 2..]
    ensures after == before + (head + (U16(|value|) + value))
  {
    hide U16;
    var b := before + head + U16(0) + value;
    assert b[..|before + head|] == before + head;
    assert b[|before + head| + 2..] == value;
    assert before + head + U16(|value|) + value == before + (head + (U16(|value|) + value));
  }

  method WriteParam(w: Writer, p: Param) returns (r: Result<()>)
    modifies w
    ensures WroteBytes(old(w.bytes), w.bytes, r,
                       match EncodeParam(p)
                       case Err => Err
                       case Ok(value) =>
                         if 0 <= ParamKey(p) <= 0xffff
                         then Ok(U16(ParamKey(p)) + (U16(|value|) + value)) else Err)
  {
    hide U16, EncodeParam;
    var _ :- w.PutU16(ParamKey(p));
    var lengthOffset := |w.bytes|;
    var _ := w.PutU16(0);
    var valueOffset := |w.bytes|;
    var _ :- WriteServiceParam(w, p);
    ghost var value := EncodeParam(p).value;
    w.SetU16(lengthOffset, |w.bytes| - valueOffset);
    Patched(old(w.bytes), U16(ParamKey(p)), value, w.bytes);
    r := Ok(());
  }

  lemma ParamStep(done: Bytes, params: seq<Param>, head: Bytes, whole: Result<Bytes>)
    requires params != [] && Rest(done, EncodeParams(params), whole)
    requires EncodeParam(params[0]).Ok? && 0 <= ParamKey(params[0]) <= 0xffff
    requires var value := EncodeParam(params[0]).value;
             head == U16(ParamKey(params[0])) + (U16(|value|) + value)
    ensures Rest(done + head, EncodeParams(params[1..]), whole)
  {
    hide U16, EncodeParam;
    var value := EncodeParam(params[0]).value;
    var rest := EncodeParams(params[1..]);
    assert rest.Ok? ==>
        U16(ParamKey(params[0])) + (U16(|value|) + (value + rest.value)) == head + rest.value;
    RestStep(done, head, EncodeParams(params), rest, whole);
  }

  method WriteParams(w: Writer, params: seq<Param>) returns (r: Result<()>)
    requires DistinctKeys(params)
    modifies w
    ensures WroteBytes(old(w.bytes), w.bytes, r, EncodeParams(params))
  {
    hide U16, EncodeParam;
    ghost var whole := EncodeParams(params);
    ghost var done: Bytes := [];
    var previous := -1;
    RestStart(whole);
    assert params[0..] == params;
    for i := 0 to |params|
      invariant w.bytes == old(w.bytes) + done
      invariant Rest(done, EncodeParams(params[i..]), whole)
      invariant if i == 0 then previous == -1 else previous == ParamKey(params[i - 1])
    {
      assert params[i..][0] == params[i] && params[i..][1..] == params[i + 1..];
      var key := ParamKey(params[i]);
      if key == previous {
        return Err;
      }
      previous := key;
      var _ :- WriteParam(w, params[i]);
      ghost var value := EncodeParam(params[i]).value;
      ghost var head := U16(key) + (U16(|value|) + value);
      ParamStep(done, params[i..], head, whole);
      done := done + head;
    }
    assert params[|params|..] == [];
    r := Ok(());
  }

  /** What one pass over `params` has collected. */
  ghost predicate Scanned(params: seq<Param>, keys: set<int>, alpn: bool, noDefault: bool, mandatory: seq<int>) {
    && keys == ParamKeys(params)
    && DistinctKeys(params)
    && (forall p :: p in params ==> ValidParam(p))
    && (alpn <==> exists p :: p in params && p.Alpn?)
    && (noDefault <==> NoDefaultAlpn in params)
    && (forall p :: p in params && p.Mandatory? ==> mandatory == p.keys)
    && (mandatory != [] ==> Mandatory(mandatory) in params)
  }

  lemma ScanStep(params: seq<Param>, keys: set<int>, alpn: bool, noDefault: bool, mandatory: seq<int>, p: Param)
    requires Scanned(params, keys, alpn, noDefault, mandatory)
    requires ParamKey(p) !in keys && ValidParam(p)
    ensures Scanned(params + [p], keys + {ParamKey(p)}, alpn || p.Alpn?, noDefault || p.NoDefaultAlpn?,
                    if p.Mandatory? then p.keys else mandatory)
  {
    hide ValidParam;
    var longer := params + [p];
    assert forall q :: q in longer <==> q in params || q == p;
    assert forall q :: q in params ==> ParamKey(q) in keys;
    if alpn {
      var q :| q in params && q.Alpn?;
      assert q in longer;
    }
    if p.Alpn? {
      assert p in longer;
    }
  }

  lemma ScanDone(params: seq<Param>, keys: set<int>, alpn: bool, noDefault: bool, mandatory: seq<int>)
    requires Scanned(params, keys, alpn, noDefault, mandatory)
    ensures ValidParams(params) <==> (noDefault ==> alpn) && (forall k :: k in mandatory ==> k in keys)
  {
    hide ValidParam;
  }

  lemma Duplicate(params: seq<Param>, i: nat)
    requires i < |params| && ParamKey(params[i]) in ParamKeys(params[..i])
    ensures !DistinctKeys(params)
  {
    var q :| q in params[..i] && ParamKey(q) == ParamKey(params[i]);
    var j :| 0 <= j < i && params[j] == q;
  }

  /** `validateServiceBinding`: one pass that collects keys and flags, then the
      two conditions over the whole list. */
  method ValidateServiceBinding(params: seq<Param>) returns (ok: bool)
    ensures ok <==> ValidParams(params)
  {
    hide Scanned, ValidParam;
    var keys: set<int> := {};
    var hasAlpn, hasNoDefaultAlpn := false, false;
    var mandatory: seq<int> := [];
    ScanStart();
    assert params[..0] == [];
    for i := 0 to |params|
      invariant keys == ParamKeys(params[..i])
      invariant Scanned(params[..i], keys, hasAlpn, hasNoDefaultAlpn, mandatory)
    {
      var p := params[i];
      if ParamKey(p) in keys {
        Duplicate(params, i);
        return false;
      }
      if !ValidParam(p) {
        assert p in params;
        return false;
      }
      ScanStep(params[..i], keys, hasAlpn, hasNoDefaultAlpn, mandatory, p);
      assert params[..i + 1] == params[..i] + [p];
      ScanKeys(params[..i], p);
      keys := keys + {ParamKey(p)};
      if p.Mandatory? {
        mandatory := p.keys;
      }
      hasAlpn := hasAlpn || p.Alpn?;
      hasNoDefaultAlpn := hasNoDefaultAlpn || p.NoDefaultAlpn?;
    }
    assert params[..|params|] == params;
    ScanDone(params, keys, hasAlpn, hasNoDefaultAlpn, mandatory);
    if hasNoDefaultAlpn && !hasAlpn {
      return false;
    }
    ok := forall k :: k in mandatory ==> k in keys;
  }

  lemma ScanStart()
    ensures Scanned([], {}, false, false, [])
  {
  }

  lemma ScanKeys(params: seq<Param>, p: Param)
    ensures ParamKeys(params + [p]) == ParamKeys(params) + {ParamKey(p)}
  {
    assert forall q :: q in params + [p] <==> q in params || q == p;
  }

  method WriteServiceBinding(w: Writer, b: Binding) returns (r: Result<()>)
    modifies w
    ensures WroteBytes(old(w.bytes), w.bytes, r, EncodeBinding(b))
  {
    hide U16, ValidParams, NameLabels, EncodePlain, EncodeParams, SortParams;
    var valid := ValidateServiceBinding(b.params);
    if !valid {
      return Err;
    }
    var _ :- w.PutU16(b.priority);
    var labels :- NameLabels(b.target);
    var _ :- WriteName(w, labels);
    SortedDistinct(b.params);
    var _ :- WriteParams(w, SortParams(b.params));
    ghost var target, params := EncodePlain(labels).value, EncodeParams(SortParams(b.params)).value;
    assert old(w.bytes) + U16(b.priority) + target + params ==
           old(w.bytes) + (U16(b.priority) + (target + params));
    r := Ok(());
  }

  lemma SortedDistinct(params: seq<Param>)
    requires ValidParams(params)
    ensures DistinctKeys(SortParams(params))
  {
    hide ValidParam;
    var previous := LowestKey(params) - 1;
    SortParamsSorts(previous, params);
    ParamsAboveDistinct(previous, SortParams(params));
  }

  // ----------------------------------------------------------------- records

  method WriteRecordData(w: Writer, refs: Refs, d: Data) returns (r: Result<Refs>)
    modifies w
    ensures Wrote(old(w.bytes), w.bytes, r, EncodeData(|old(w.bytes)|, refs, d))
  {
    hide EncodeCompressed, EncodeBinding, EncodeChunks, TextChunks, NameLabels;
    match d
    case A(address) =>
      if |address| != 4 { return Err; }
      w.Put(address);
      r := Ok(refs);
    case Aaaa(address) =>
      if |address| != 16 { return Err; }
      w.Put(address);
      r := Ok(refs);
    case Cname(cname) => r := WriteCompressedName(w, refs, cname);
    case Txt(text) =>
      var _ :- WriteChunks(w, TextChunks(text));
      r := Ok(refs);
    case Https(binding) =>
      var _ :- WriteServiceBinding(w, binding);
      r := Ok(refs);
    case Svcb(binding) =>
      var _ :- WriteServiceBinding(w, binding);
      r := Ok(refs);
  }

  /** `writeRecord`: the data length is written as zero and patched afterwards. */
  method WriteRecord(w: Writer, table: Refs, origin: Name, record: Record) returns (r: Result<Refs>)
    modifies w
    ensures Wrote(old(w.bytes), w.bytes, r, EncodeRecord(|old(w.bytes)|, table, origin, record))
  {
    hide U16, U32, NameLabels, Normalize, EncodeCompressed, EncodeData, DataType, NonEmpty;
    var refs :- WriteCompressedName(w, table, Normalize(origin, record.name));
    ghost var named := w.bytes;
    var _ := PutType(w, record);
    var _ :- w.PutU32(record.ttl);
    assert w.bytes == named + RecordHead(record);
    var lengthOffset := |w.bytes|;
    var _ := w.PutU16(0);
    var dataOffset := |w.bytes|;
    refs :- WriteRecordData(w, refs, record.data);
    ghost var labels := NameLabels(Normalize(origin, record.name)).value;
    ghost var name := EncodeCompressed(|old(w.bytes)|, table, labels).value;
    ghost var data := EncodeData(dataOffset, name.refs, record.data).value;
    w.SetU16(lengthOffset, |w.bytes| - dataOffset);
    Patched(named, RecordHead(record), data.bytes, w.bytes);
    Regroup(old(w.bytes), name.bytes, RecordHead(record) + (U16(|data.bytes|) + data.bytes));
    r := Ok(refs);
  }

  lemma Regroup(a: Bytes, b: Bytes, c: Bytes)
    ensures (a + b) + c == a + (b + c)
  {
  }

  method PutType(w: Writer, record: Record) returns (r: Result<()>)
    modifies w
    ensures w.bytes == old(w.bytes) + (U16(DataType(record.data)) + U16(CLASS_IN))
  {
    hide U16;
    r := w.PutU16(DataType(record.data));
    r := w.PutU16(CLASS_IN);
  }

  /** `encodeDnsResponse` */
  method EncodeDnsResponse(origin: Name, records: seq<Record>) returns (r: Result<Bytes>)
    ensures r == EncodeResponse(origin, records)
  {
    hide U16, EncodeRecord, EncodeRecords;
    var w := new Writer();
    var _ := w.PutU16(0);
    var _ := w.PutU16(0x8000);
    var _ := w.PutU16(0);
    var _ :- w.PutU16(|records|);
    var _ := w.PutU16(0);
    var _ := w.PutU16(0);
    assert w.bytes == Header(|records|);
    var body :- WriteRecords(w, origin, records);
    var packet := w.bytes;
    if |packet| > MAX_PACKET {
      return Err;
    }
    r := Ok(packet);
  }

  method WriteRecords(w: Writer, origin: Name, records: seq<Record>) returns (r: Result<Refs>)
    modifies w
    ensures Wrote(old(w.bytes), w.bytes, r, EncodeRecords(|old(w.bytes)|, map[], origin, records))
  {
    hide EncodeRecord;
    ghost var start := w.bytes;
    ghost var whole := EncodeRecords(|start|, map[], origin, records);
    ghost var done: Bytes := [];
    var refs: Refs := map[];
    assert records[0..] == records;
    assert whole.Ok? ==> [] + whole.value.bytes == whole.value.bytes;
    for i := 0 to |records|
      invariant w.bytes == start + done
      invariant NameRest(done, EncodeRecords(|w.bytes|, refs, origin, records[i..]), whole)
    {
      assert records[i..][0] == records[i] && records[i..][1..] == records[i + 1..];
      ghost var now := EncodeRecords(|w.bytes|, refs, origin, records[i..]);
      ghost var first := EncodeRecord(|w.bytes|, refs, origin, records[i]);
      refs :- WriteRecord(w, refs, origin, records[i]);
      NameRestStep(done, first.value.bytes, now, EncodeRecords(|w.bytes|, refs, origin, records[i + 1..]), whole);
      done := done + first.value.bytes;
    }
    assert records[|records|..] == [];
    r := Ok(refs);
  }
}
