/** Service bindings (section 2.2 of RFC 9460): reading undoes writing, up to
    the sorted order of parameters and mandatory keys. */
module DnsBindings {
  import opened Bytes
  import opened DnsMessage
  import opened DnsNames

  // ------------------------------------------------------------ sorted order

  /** Strictly increasing, and above `previous`. */
  ghost predicate KeysAbove(previous: int, keys: seq<int>)
    decreases |keys|
  {
    keys == [] || (previous < keys[0] && KeysAbove(keys[0], keys[1..]))
  }

  ghost predicate ParamsAbove(previous: int, params: seq<Param>)
    decreases |params|
  {
    params == [] || (previous < ParamKey(params[0]) && ParamsAbove(ParamKey(params[0]), params[1..]))
  }

  lemma {:induction false} InsertKeySorts(previous: int, k: int, keys: seq<int>)
    requires KeysAbove(previous, keys) && k !in keys && previous < k
    ensures KeysAbove(previous, InsertKey(k, keys))
    ensures forall x :: x in InsertKey(k, keys) <==> x == k || x in keys
    decreases |keys|
  {
    if keys == [] || k <= keys[0] {
      assert ([k] + keys)[1..] == keys;
    } else {
      InsertKeySorts(keys[0], k, keys[1..]);
      assert ([keys[0]] + InsertKey(k, keys[1..]))[1..] == InsertKey(k, keys[1..]);
    }
  }

  /** Sorting distinct keys orders them strictly and keeps exactly them. */
  lemma {:induction false} SortKeysSorts(previous: int, keys: seq<int>)
    requires forall i, j :: 0 <= i < j < |keys| ==> keys[i] != keys[j]
    requires forall k :: k in keys ==> previous < k
    ensures KeysAbove(previous, SortKeys(keys))
    ensures forall x :: x in SortKeys(keys) <==> x in keys
  {
    if keys != [] {
      assert forall k :: k in keys[1..] ==> k in keys;
      assert keys[0] in keys;
      SortKeysSorts(previous, keys[1..]);
      InsertKeySorts(previous, keys[0], SortKeys(keys[1..]));
    }
  }

  lemma {:induction false} KeysAboveStrict(previous: int, keys: seq<int>)
    requires KeysAbove(previous, keys)
    ensures forall i :: 0 <= i < |keys| ==> previous < keys[i]
    ensures forall i, j :: 0 <= i < j < |keys| ==> keys[i] < keys[j]
    decreases |keys|
  {
    if keys != [] {
      KeysAboveStrict(keys[0], keys[1..]);
    }
  }

  lemma {:induction false} InsertParamSorts(previous: int, p: Param, params: seq<Param>)
    requires ParamsAbove(previous, params) && previous < ParamKey(p)
    requires forall x :: x in params ==> ParamKey(x) != ParamKey(p)
    ensures ParamsAbove(previous, InsertParam(p, params))
    ensures forall x :: x in InsertParam(p, params) <==> x == p || x in params
    decreases |params|
  {
    if params == [] || ParamKey(p) <= ParamKey(params[0]) {
      assert ([p] + params)[1..] == params;
    } else {
      InsertParamSorts(ParamKey(params[0]), p, params[1..]);
      assert ([params[0]] + InsertParam(p, params[1..]))[1..] == InsertParam(p, params[1..]);
    }
  }

  lemma {:induction false} SortParamsSorts(previous: int, params: seq<Param>)
    requires DistinctKeys(params)
    requires forall p :: p in params ==> previous < ParamKey(p)
    ensures ParamsAbove(previous, SortParams(params))
    ensures forall x :: x in SortParams(params) <==> x in params
  {
    if params != [] {
      SortParamsSorts(previous, params[1..]);
      InsertParamSorts(previous, params[0], SortParams(params[1..]));
    }
  }

  lemma {:induction false} ParamsAboveDistinct(previous: int, params: seq<Param>)
    requires ParamsAbove(previous, params)
    ensures forall i :: 0 <= i < |params| ==> previous < ParamKey(params[i])
    ensures DistinctKeys(params)
    decreases |params|
  {
    if params != [] {
      ParamsAboveDistinct(ParamKey(params[0]), params[1..]);
    }
  }

  // ---------------------------------------------------------- canonical form

  function CanonParam(p: Param): Param {
    if p.Mandatory? then Mandatory(SortKeys(p.keys)) else p
  }

  function CanonEach(params: seq<Param>): seq<Param> {
    if params == [] then [] else [CanonParam(params[0])] + CanonEach(params[1..])
  }

  /** Parameters in key order, mandatory keys in order. */
  function CanonParams(params: seq<Param>): seq<Param> {
    CanonEach(SortParams(params))
  }

  lemma {:induction false} CanonEachAbove(previous: int, params: seq<Param>)
    requires ParamsAbove(previous, params)
    ensures ParamsAbove(previous, CanonEach(params))
    decreases |params|
  {
    if params != [] {
      CanonEachAbove(ParamKey(params[0]), params[1..]);
      assert CanonEach(params)[1..] == CanonEach(params[1..]);
    }
  }

  lemma {:induction false} CanonImage(params: seq<Param>, p: Param)
    requires p in params
    ensures CanonParam(p) in CanonEach(params)
  {
    if p != params[0] {
      CanonImage(params[1..], p);
    }
  }

  lemma {:induction false} CanonPreimage(params: seq<Param>, x: Param) returns (p: Param)
    requires x in CanonEach(params)
    ensures p in params && x == CanonParam(p)
  {
    if x == CanonParam(params[0]) {
      p := params[0];
    } else {
      p := CanonPreimage(params[1..], x);
    }
  }

  lemma CanonParamValid(p: Param)
    requires ValidParam(p)
    ensures ValidParam(CanonParam(p))
    ensures p.Mandatory? ==> forall k :: k in CanonParam(p).keys <==> k in p.keys
    ensures p.Mandatory? ==> ValidMandatory(CanonParam(p).keys, true)
  {
    if p.Mandatory? {
      SortKeysSorts(0, p.keys);
      KeysAboveStrict(0, SortKeys(p.keys));
      assert p.keys[0] in SortKeys(p.keys);
    }
  }

  lemma CanonKeys(sorted: seq<Param>)
    ensures ParamKeys(sorted) <= ParamKeys(CanonEach(sorted))
  {
    forall k | k in ParamKeys(sorted) ensures k in ParamKeys(CanonEach(sorted)) {
      var p :| p in sorted && ParamKey(p) == k;
      CanonImage(sorted, p);
      assert ParamKey(CanonParam(p)) == k;
    }
  }

  /** Canonical forms of valid parameters with distinct keys are valid. */
  lemma CanonEachValid(sorted: seq<Param>)
    requires ValidParams(sorted) && DistinctKeys(CanonEach(sorted))
    ensures ValidParams(CanonEach(sorted))
  {
    var canon := CanonEach(sorted);
    CanonKeys(sorted);
    forall x | x in canon
      ensures ValidParam(x)
      ensures x.Mandatory? ==> forall k :: k in x.keys ==> k in ParamKeys(canon)
      ensures x.NoDefaultAlpn? ==> NoDefaultAlpn in sorted
    {
      var p := CanonPreimage(sorted, x);
      CanonParamValid(p);
    }
    if NoDefaultAlpn in canon {
      var a :| a in sorted && a.Alpn?;
      CanonImage(sorted, a);
    }
  }

  lemma SortedValid(params: seq<Param>, sorted: seq<Param>)
    requires ValidParams(params) && DistinctKeys(sorted)
    requires forall x :: x in sorted <==> x in params
    ensures ValidParams(sorted)
  {
    assert ParamKeys(sorted) == ParamKeys(params);
    if NoDefaultAlpn in sorted {
      var a :| a in params && a.Alpn?;
      assert a in sorted;
    }
  }

  /** The canonical parameters pass validation because the given ones do. */
  lemma CanonParamsValid(previous: int, params: seq<Param>)
    requires ValidParams(params) && forall p :: p in params ==> previous < ParamKey(p)
    ensures ValidParams(CanonParams(params))
  {
    var sorted := SortParams(params);
    SortParamsSorts(previous, params);
    ParamsAboveDistinct(previous, sorted);
    SortedValid(params, sorted);
    CanonEachAbove(previous, sorted);
    ParamsAboveDistinct(previous, CanonEach(sorted));
    CanonEachValid(sorted);
  }

  // --------------------------------------------------------- reading it back

  lemma ReadU16At(buf: Bytes, off: nat, value: nat)
    requires value <= 0xffff && Has(buf, off, U16(value))
    ensures ReadU16(buf, off) == Ok(Read(value, off + 2))
  {
    HasIndex(buf, off, U16(value), 0);
    HasIndex(buf, off, U16(value), 1);
  }

  lemma {:induction false} ReadKeysAt(buf: Bytes, off: nat, keys: seq<int>, e: Bytes)
    requires EncodeKeys(keys) == Ok(e) && Has(buf, off, e)
    ensures ReadKeys(buf, off, off + |e|) == Ok(Read(keys, off + |e|))
    decreases |keys|
  {
    hide U16, Has, ReadU16;
    if keys != [] {
      var rest := EncodeKeys(keys[1..]).value;
      HasSplit(buf, off, U16(keys[0]), rest);
      ReadU16At(buf, off, keys[0]);
      ReadKeysAt(buf, off + 2, keys[1..], rest);
      assert keys == [keys[0]] + keys[1..];
    }
  }

  lemma ChunkHeadAt(buf: Bytes, off: nat, chunk: Bytes, rest: Bytes)
    requires |chunk| <= 255 && Has(buf, off, [|chunk|] + (chunk + rest))
    ensures ReadU8(buf, off) == Ok(Read(|chunk|, off + 1))
    ensures Take(buf, off + 1, |chunk|) == Ok(Read(chunk, off + 1 + |chunk|))
    ensures Has(buf, off + 1 + |chunk|, rest)
  {
    HasSplit(buf, off, [|chunk|], chunk + rest);
    HasSplit(buf, off + 1, chunk, rest);
    HasIndex(buf, off, [|chunk|], 0);
  }

  lemma {:induction false} ReadChunksAt(buf: Bytes, off: nat, chunks: seq<Bytes>, e: Bytes)
    requires EncodeChunks(chunks) == Ok(e) && Has(buf, off, e)
    ensures ReadChunks(buf, off, off + |e|) == Ok(Read(chunks, off + |e|))
    decreases |chunks|
  {
    hide Has, Take, ReadU8;
    if chunks != [] {
      var rest := EncodeChunks(chunks[1..]).value;
      ChunkHeadAt(buf, off, chunks[0], rest);
      ReadChunksAt(buf, off + 1 + |chunks[0]|, chunks[1..], rest);
      assert chunks == [chunks[0]] + chunks[1..];
    }
  }

  lemma {:induction false} ReadFixedAt(buf: Bytes, off: nat, items: seq<Bytes>, width: nat, e: Bytes)
    requires width > 0 && EncodeFixed(items, width) == Ok(e) && Has(buf, off, e)
    ensures ReadFixed(buf, off, off + |e|, width) == Ok(Read(items, off + |e|))
    decreases |items|
  {
    if items != [] {
      hide Has;
      var rest := EncodeFixed(items[1..], width).value;
      HasSplit(buf, off, items[0], rest);
      ReadFixedAt(buf, off + width, items[1..], width, rest);
      assert items == [items[0]] + items[1..];
    }
  }

  lemma ReadMandatoryAt(buf: Bytes, off: nat, keys: seq<int>, e: Bytes)
    requires ValidMandatory(keys, false) && EncodeKeys(SortKeys(keys)) == Ok(e) && Has(buf, off, e)
    ensures ReadParam(buf, 0, off, off + |e|) == Ok(Read(Mandatory(SortKeys(keys)), off + |e|))
  {
    CanonParamValid(Mandatory(keys));
    ReadKeysAt(buf, off, SortKeys(keys), e);
  }

  lemma ReadEchAt(buf: Bytes, off: nat, data: Bytes)
    requires |data| <= 0xffff && Has(buf, off, U16(|data|) + data)
    ensures ReadParam(buf, 5, off, off + 2 + |data|) == Ok(Read(Ech(data), off + 2 + |data|))
  {
    HasSplit(buf, off, U16(|data|), data);
    ReadU16At(buf, off, |data|);
  }

  /** A parameter value reads back as its canonical form. */
  lemma ReadParamAt(buf: Bytes, off: nat, p: Param, e: Bytes)
    requires ValidParam(p) && EncodeParam(p) == Ok(e) && Has(buf, off, e)
    requires ParamKey(p) >= 0
    ensures ReadParam(buf, ParamKey(p), off, off + |e|) == Ok(Read(CanonParam(p), off + |e|))
  {
    match p
    case Mandatory(keys) => ReadMandatoryAt(buf, off, keys, e);
    case Alpn(ids) => ReadChunksAt(buf, off, ids, e);
    case NoDefaultAlpn =>
    case Port(port) => ReadU16At(buf, off, port);
    case Ipv4Hint(addresses) => ReadFixedAt(buf, off, addresses, 4, e);
    case Ech(data) => ReadEchAt(buf, off, data);
    case Ipv6Hint(addresses) => ReadFixedAt(buf, off, addresses, 16, e);
    case Unknown(key, value) =>
  }

  lemma ParamHeadAt(buf: Bytes, off: nat, key: nat, value: Bytes, rest: Bytes)
    requires key <= 0xffff && |value| <= 0xffff
    requires Has(buf, off, U16(key) + (U16(|value|) + (value + rest)))
    ensures ReadU16(buf, off) == Ok(Read(key, off + 2))
    ensures ReadU16(buf, off + 2) == Ok(Read(|value|, off + 4))
    ensures Has(buf, off + 4, value)
    ensures Has(buf, off + 4 + |value|, rest)
  {
    hide *;
    HasSplit(buf, off, U16(key), U16(|value|) + (value + rest));
    HasSplit(buf, off + 2, U16(|value|), value + rest);
    HasSplit(buf, off + 4, value, rest);
    ReadU16At(buf, off, key);
    ReadU16At(buf, off + 2, |value|);
  }

  /** One round of the parameter loop. */
  lemma ReadParamsStep(buf: Bytes, off: nat, end: nat, previous: int,
                       key: Read<nat>, length: Read<nat>, param: Read<Param>, rest: Read<seq<Param>>)
    requires off < end && previous < key.value
    requires ReadU16(buf, off) == Ok(key)
    requires ReadU16(buf, key.next) == Ok(length)
    requires ReadParam(buf, key.value, length.next, length.next + length.value) == Ok(param)
    requires ReadParams(buf, param.next, end, key.value) == Ok(rest)
    ensures ReadParams(buf, off, end, previous) == Ok(Read([param.value] + rest.value, rest.next))
  {
  }

  lemma {:induction false} ReadParamsAt(buf: Bytes, off: nat, params: seq<Param>, e: Bytes, previous: int)
    requires ParamsAbove(previous, params) && (forall p :: p in params ==> ValidParam(p))
    requires EncodeParams(params) == Ok(e) && Has(buf, off, e) && |e| <= 0xffff
    ensures ReadParams(buf, off, off + |e|, previous) == Ok(Read(CanonEach(params), off + |e|))
    decreases |params|
  {
    hide U16, Has, ReadU16, ReadParam, ValidParam;
    if params != [] {
      var key := ParamKey(params[0]);
      var value := EncodeParam(params[0]).value;
      var rest := EncodeParams(params[1..]).value;
      var next := off + 4 + |value|;
      ParamHeadAt(buf, off, key, value, rest);
      ReadParamAt(buf, off + 4, params[0], value);
      ReadParamsAt(buf, next, params[1..], rest, key);
      assert next + |rest| == off + |e|;
      ReadParamsStep(buf, off, off + |e|, previous, Read(key, off + 2), Read(|value|, off + 4),
                     Read(CanonParam(params[0]), next), Read(CanonEach(params[1..]), next + |rest|));
    }
  }

  /** Labels the writer accepts are ones the reader accepts. */
  lemma NameLabelsValid(name: Name)
    requires NameLabels(name).Ok?
    ensures NameLabels(name).value == NonEmpty(name)
    ensures ValidLabels(NonEmpty(name)) && NameSize(NonEmpty(name)) <= 254
  {
  }

  /** Keys the writer accepts are not negative. */
  lemma {:induction false} EncodedKeys(params: seq<Param>)
    requires EncodeParams(params).Ok?
    ensures forall p :: p in params ==> -1 < ParamKey(p)
  {
    if params != [] {
      EncodedKeys(params[1..]);
    }
  }

  function CanonBinding(b: Binding): Binding {
    Binding(b.priority, NameOf(NonEmpty(b.target)), CanonParams(b.params))
  }

  lemma BindingHeadAt(buf: Bytes, off: nat, priority: nat, labels: Labels, target: Bytes, params: Bytes)
    requires priority <= 0xffff && EncodePlain(labels) == Ok(target)
    requires ValidLabels(labels) && NameSize(labels) <= 254
    requires Has(buf, off, U16(priority) + (target + params))
    ensures ReadU16(buf, off) == Ok(Read(priority, off + 2))
    ensures ReadName(buf, off + 2) == Ok(Read(NameOf(labels), off + 2 + |target|))
    ensures Has(buf, off + 2 + |target|, params)
  {
    hide *;
    HasSplit(buf, off, U16(priority), target + params);
    HasSplit(buf, off + 2, target, params);
    ReadU16At(buf, off, priority);
    PlainAt(buf, off + 2, labels);
    ReadNameAt(buf, off + 2, labels);
  }

  lemma ReadBindingStep(buf: Bytes, off: nat, end: nat,
                        priority: Read<nat>, target: Read<Name>, params: Read<seq<Param>>)
    requires ReadU16(buf, off) == Ok(priority)
    requires ReadName(buf, priority.next) == Ok(target)
    requires ReadParams(buf, target.next, end, -1) == Ok(params)
    requires ValidParams(params.value)
    ensures ReadBinding(buf, off, end) ==
            Ok(Read(Binding(priority.value, target.value, params.value), params.next))
  {
  }

  /** A binding reads back in canonical form. */
  lemma ReadBindingAt(buf: Bytes, off: nat, b: Binding, e: Bytes)
    requires EncodeBinding(b) == Ok(e) && Has(buf, off, e) && |e| <= 0xffff
    ensures ReadBinding(buf, off, off + |e|) == Ok(Read(CanonBinding(b), off + |e|))
  {
    hide U16, Has, ReadU16, ReadName, ReadParams, ReadBinding, ValidParams, NameLabels, EncodePlain, EncodeParams, SortParams, NameSize, ValidLabels;
    var labels := NameLabels(b.target).value;
    var target := EncodePlain(labels).value;
    var params := EncodeParams(SortParams(b.params)).value;
    NameLabelsValid(b.target);
    BindingHeadAt(buf, off, b.priority, labels, target, params);
    SortedForReading(b.params);
    var next := off + 2 + |target|;
    ReadParamsAt(buf, next, SortParams(b.params), params, -1);
    assert next + |params| == off + |e|;
    ReadBindingStep(buf, off, off + |e|, Read(b.priority, off + 2), Read(NameOf(labels), next),
                    Read(CanonParams(b.params), next + |params|));
  }

  lemma SortedForReading(params: seq<Param>)
    requires ValidParams(params) && EncodeParams(SortParams(params)).Ok?
    ensures ParamsAbove(-1, SortParams(params))
    ensures forall p :: p in SortParams(params) ==> ValidParam(p)
    ensures ValidParams(CanonParams(params))
  {
    SortParamsSorts(LowestKey(params) - 1, params);
    EncodedKeys(SortParams(params));
    SortParamsSorts(-1, params);
    CanonParamsValid(-1, params);
  }

  ghost function LowestKey(params: seq<Param>): (k: int)
    ensures forall p :: p in params ==> k <= ParamKey(p)
  {
    if params == [] then 0
    else
      var k := LowestKey(params[1..]);
      if ParamKey(params[0]) < k then ParamKey(params[0]) else k
  }
}
