/** The DNS messages pkarr signs: names, records and service bindings, with the
    byte format written by `encodeDnsResponse` and read by `parseDnsResponse`.

    Here a name is written by a function of the offset it starts at and of the
    suffix table, so a length that the writer patches in afterwards is simply a
    length; module DnsCodec proves that the patching writer emits these bytes. */
module DnsMessage {
  import opened Bytes

  /** A label is modelled by its bytes. */
  type Label = Bytes
  type Labels = seq<Label>

  /** A name string, split at its dots: "a..b" is [a, "", b] and "" is [""]. */
  type Name = parts: seq<Bytes> | |parts| > 0 witness [[]]

  /** The suffix table: NUL-joined labels to the offset where they were written. */
  type Refs = map<Bytes, nat>

  const CLASS_IN := 1
  const MAX_PACKET := 1000

  datatype Param =
    | Mandatory(keys: seq<int>)
    | Alpn(ids: seq<Bytes>)
    | NoDefaultAlpn
    | Port(port: int)
    | Ipv4Hint(addresses: seq<Bytes>)
    | Ech(data: Bytes)
    | Ipv6Hint(addresses: seq<Bytes>)
    | Unknown(key: int, value: Bytes)

  datatype Binding = Binding(priority: int, target: Name, params: seq<Param>)

  /** TXT content, either one byte string or chunks already cut. */
  datatype Text = Whole(bytes: Bytes) | Chunks(chunks: seq<Bytes>)

  datatype Data =
    | A(address: Bytes)
    | Aaaa(address: Bytes)
    | Cname(cname: Name)
    | Txt(text: Text)
    | Https(binding: Binding)
    | Svcb(binding: Binding)

  datatype Record = Record(name: Name, ttl: int, data: Data)

  // ---------------------------------------------------------------- names

  function Trim(name: Name): Name {
    if |name| > 1 && name[|name| - 1] == [] then name[..|name| - 1] else name
  }

  function Normalize(origin: Name, name: Name): Name {
    var t := Trim(name);
    var last := t[|t| - 1];
    if origin == [last] then t
    else if last == [64] || last == [] then origin
    else t + origin
  }

  function NonEmpty(parts: seq<Bytes>): (r: Labels)
    ensures forall l :: l in r ==> l != [] && l in parts
  {
    if parts == [] then []
    else if parts[0] == [] then NonEmpty(parts[1..])
    else [parts[0]] + NonEmpty(parts[1..])
  }

  /** Bytes the labels occupy, without the terminating zero. */
  function NameSize(labels: Labels): nat {
    if labels == [] then 0 else |labels[0]| + 1 + NameSize(labels[1..])
  }

  function NameLabels(name: Name): Result<Labels> {
    var labels := NonEmpty(name);
    if NameSize(labels) + 1 > 255 then Err
    else if exists l :: l in labels && |l| > 63 then Err
    else Ok(labels)
  }

  /** What a reader makes of labels: joining them with dots gives a string. */
  function NameOf(labels: Labels): Name {
    if labels == [] then [[]] else labels
  }

  function Key(labels: Labels): Bytes {
    if labels == [] then []
    else if |labels| == 1 then labels[0]
    else labels[0] + [0] + Key(labels[1..])
  }

  datatype Emit = Emit(bytes: Bytes, refs: Refs)

  /** `writeCompressedName`, started at offset `off`. */
  function EncodeCompressed(off: nat, refs: Refs, labels: Labels): Result<Emit>
    decreases |labels|
  {
    if labels == [] then Ok(Emit([0], refs))
    else if Key(labels) in refs then
      var target := refs[Key(labels)];
      var _ :- Check(target <= 0xffff);
      Ok(Emit(U16(0xc000 + target % 0x4000), refs))
    else
      var _ :- Check(|labels[0]| <= 255);
      var head := [|labels[0]|] + labels[0];
      var rest :- EncodeCompressed(off + |head|, refs[Key(labels) := off], labels[1..]);
      Ok(Emit(head + rest.bytes, rest.refs))
  }

  /** `writeName`: no compression. */
  function EncodePlain(labels: Labels): Result<Bytes> {
    if labels == [] then Ok([0])
    else
      var _ :- Check(|labels[0]| <= 255);
      var rest :- EncodePlain(labels[1..]);
      Ok([|labels[0]|] + labels[0] + rest)
  }

  // ------------------------------------------------------ service bindings

  function ParamKey(p: Param): int {
    match p
    case Mandatory(_) => 0
    case Alpn(_) => 1
    case NoDefaultAlpn => 2
    case Port(_) => 3
    case Ipv4Hint(_) => 4
    case Ech(_) => 5
    case Ipv6Hint(_) => 6
    case Unknown(key, _) => key
  }

  predicate ValidMandatory(keys: seq<int>, sorted: bool) {
    && keys != []
    && (forall k :: k in keys ==> 0 < k <= 0xffff)
    && (forall i, j :: 0 <= i < j < |keys| ==> keys[i] != keys[j])
    && (sorted ==> forall i, j :: 0 <= i < j < |keys| ==> keys[i] < keys[j])
  }

  predicate ValidParam(p: Param) {
    match p
    case Mandatory(keys) => ValidMandatory(keys, false)
    case Alpn(ids) => ids != [] && forall id :: id in ids ==> id != []
    case Ipv4Hint(addresses) => addresses != []
    case Ipv6Hint(addresses) => addresses != []
    case Unknown(key, _) => key > 6
    case _ => true
  }

  function ParamKeys(params: seq<Param>): set<int> {
    set p | p in params :: ParamKey(p)
  }

  predicate DistinctKeys(params: seq<Param>) {
    forall i, j :: 0 <= i < j < |params| ==> ParamKey(params[i]) != ParamKey(params[j])
  }

  /** `validateServiceBinding` */
  predicate ValidParams(params: seq<Param>) {
    && DistinctKeys(params)
    && (forall p :: p in params ==> ValidParam(p))
    && (NoDefaultAlpn in params ==> exists p :: p in params && p.Alpn?)
    && (forall p :: p in params && p.Mandatory? ==> forall k :: k in p.keys ==> k in ParamKeys(params))
  }

  function InsertKey(k: int, keys: seq<int>): seq<int> {
    if keys == [] || k <= keys[0] then [k] + keys else [keys[0]] + InsertKey(k, keys[1..])
  }

  function SortKeys(keys: seq<int>): seq<int> {
    if keys == [] then [] else InsertKey(keys[0], SortKeys(keys[1..]))
  }

  function InsertParam(p: Param, params: seq<Param>): seq<Param> {
    if params == [] || ParamKey(p) <= ParamKey(params[0]) then [p] + params
    else [params[0]] + InsertParam(p, params[1..])
  }

  function SortParams(params: seq<Param>): seq<Param> {
    if params == [] then [] else InsertParam(params[0], SortParams(params[1..]))
  }

  function EncodeKeys(keys: seq<int>): Result<Bytes> {
    if keys == [] then Ok([])
    else
      var _ :- Check(0 <= keys[0] <= 0xffff);
      var rest :- EncodeKeys(keys[1..]);
      Ok(U16(keys[0]) + rest)
  }

  /** Chunks with a one-byte length each: TXT strings and ALPN ids. */
  function EncodeChunks(chunks: seq<Bytes>): Result<Bytes> {
    if chunks == [] then Ok([])
    else
      var _ :- Check(|chunks[0]| <= 255);
      var rest :- EncodeChunks(chunks[1..]);
      Ok([|chunks[0]|] + (chunks[0] + rest))
  }

  /** Addresses of a fixed width. */
  function EncodeFixed(items: seq<Bytes>, width: nat): Result<Bytes> {
    if items == [] then Ok([])
    else
      var _ :- Check(|items[0]| == width);
      var rest :- EncodeFixed(items[1..], width);
      Ok(items[0] + rest)
  }

  /** `writeServiceParam` */
  function EncodeParam(p: Param): Result<Bytes> {
    match p
    case Mandatory(keys) => EncodeKeys(SortKeys(keys))
    case Alpn(ids) => EncodeChunks(ids)
    case NoDefaultAlpn => Ok([])
    case Port(port) => var _ :- Check(0 <= port <= 0xffff); Ok(U16(port))
    case Ipv4Hint(addresses) => EncodeFixed(addresses, 4)
    case Ech(data) => var _ :- Check(|data| <= 0xffff); Ok(U16(|data|) + data)
    case Ipv6Hint(addresses) => EncodeFixed(addresses, 16)
    case Unknown(_, value) => Ok(value)
  }

  function EncodeParams(params: seq<Param>): Result<Bytes> {
    if params == [] then Ok([])
    else
      var key := ParamKey(params[0]);
      var _ :- Check(0 <= key <= 0xffff);
      var value :- EncodeParam(params[0]);
      var rest :- EncodeParams(params[1..]);
      Ok(U16(key) + (U16(|value|) + (value + rest)))
  }

  /** `writeServiceBinding` */
  function EncodeBinding(b: Binding): Result<Bytes> {
    var _ :- Check(ValidParams(b.params) && 0 <= b.priority <= 0xffff);
    var labels :- NameLabels(b.target);
    var target :- EncodePlain(labels);
    var params :- EncodeParams(SortParams(b.params));
    Ok(U16(b.priority) + (target + params))
  }

  // --------------------------------------------------------------- records

  /** `splitTxtBytes` after its first chunk. */
  function SplitRest(bytes: Bytes): seq<Bytes>
    decreases |bytes|
  {
    if bytes == [] then []
    else if |bytes| <= 254 then [bytes]
    else [bytes[..254]] + SplitRest(bytes[254..])
  }

  function TextChunks(text: Text): seq<Bytes> {
    match text
    case Chunks(chunks) => chunks
    case Whole(bytes) => if bytes == [] then [[]] else SplitRest(bytes)
  }

  function DataType(d: Data): nat {
    match d
    case A(_) => 1
    case Aaaa(_) => 28
    case Cname(_) => 5
    case Txt(_) => 16
    case Https(_) => 65
    case Svcb(_) => 64
  }

  /** `writeRecordData`, started at offset `off`. */
  function EncodeData(off: nat, refs: Refs, d: Data): Result<Emit> {
    match d
    case A(address) => var _ :- Check(|address| == 4); Ok(Emit(address, refs))
    case Aaaa(address) => var _ :- Check(|address| == 16); Ok(Emit(address, refs))
    case Cname(cname) => var labels :- NameLabels(cname); EncodeCompressed(off, refs, labels)
    case Txt(text) => var bytes :- EncodeChunks(TextChunks(text)); Ok(Emit(bytes, refs))
    case Https(binding) => var bytes :- EncodeBinding(binding); Ok(Emit(bytes, refs))
    case Svcb(binding) => var bytes :- EncodeBinding(binding); Ok(Emit(bytes, refs))
  }

  /** Type, class and TTL of a record. */
  function RecordHead(r: Record): (h: Bytes)
    requires 0 <= r.ttl <= 0xffff_ffff
    ensures |h| == 8
  {
    U16(DataType(r.data)) + (U16(CLASS_IN) + U32(r.ttl))
  }

  /** `writeRecord`, started at offset `off`; `setU16` keeps sixteen bits. */
  function EncodeRecord(off: nat, refs: Refs, origin: Name, r: Record): Result<Emit> {
    var labels :- NameLabels(Normalize(origin, r.name));
    var name :- EncodeCompressed(off, refs, labels);
    var _ :- Check(0 <= r.ttl <= 0xffff_ffff);
    var data :- EncodeData(off + |name.bytes| + 10, name.refs, r.data);
    Ok(Emit(name.bytes + (RecordHead(r) + (U16(|data.bytes|) + data.bytes)), data.refs))
  }

  function EncodeRecords(off: nat, refs: Refs, origin: Name, records: seq<Record>): Result<Emit>
    decreases |records|
  {
    if records == [] then Ok(Emit([], refs))
    else
      var first :- EncodeRecord(off, refs, origin, records[0]);
      var rest :- EncodeRecords(off + |first.bytes|, first.refs, origin, records[1..]);
      Ok(Emit(first.bytes + rest.bytes, rest.refs))
  }

  function Header(answers: nat): Bytes {
    U16(0) + U16(0x8000) + U16(0) + U16(answers) + U16(0) + U16(0)
  }

  /** `encodeDnsResponse` */
  function EncodeResponse(origin: Name, records: seq<Record>): Result<Bytes> {
    var _ :- Check(|records| <= 0xffff);
    var body :- EncodeRecords(12, map[], origin, records);
    var packet := Header(|records|) + body.bytes;
    var _ :- Check(|packet| <= MAX_PACKET);
    Ok(packet)
  }

  // --------------------------------------------------------------- reading

  function ReadU16(buf: Bytes, off: nat): Result<Read<nat>> {
    var _ :- Check(off + 1 < |buf|);
    Ok(Read(Be16(buf[off], buf[off + 1]), off + 2))
  }

  function ReadU32(buf: Bytes, off: nat): Result<Read<nat>> {
    var _ :- Check(off + 3 < |buf|);
    Ok(Read(Be32(buf[off], buf[off + 1], buf[off + 2], buf[off + 3]), off + 4))
  }

  /** Every value a compression pointer can take. */
  function Pointers(): set<nat> { set p: nat | 0 <= p < 0x4000 && IsPointer(p) }

  predicate IsPointer(p: nat) { p < 0x4000 }

  /** The labels from `cursor` on, and the offset after their in-place part. */
  function ScanName(buf: Bytes, cursor: nat, seen: set<nat>, size: nat): (r: Result<Read<Labels>>)
    ensures r.Ok? ==> cursor < r.value.next <= |buf|
    decreases Pointers() - seen, |buf| - cursor
  {
    if cursor >= |buf| then Err
    else
      var length := buf[cursor];
      if length >= 0xc0 then
        if cursor + 1 >= |buf| then Err
        else
          var pointer := Be16(length, buf[cursor + 1]) % 0x4000;
          if pointer in seen then Err
          else
            assert IsPointer(pointer) && pointer in Pointers() - seen;
            var target :- ScanName(buf, pointer, seen + {pointer}, size);
            Ok(Read(target.value, cursor + 2))
      else if length == 0 then Ok(Read([], cursor + 1))
      else if length > 63 || size + length + 1 >= 255 || cursor + 1 + length > |buf| then Err
      else
        var rest :- ScanName(buf, cursor + 1 + length, seen, size + length + 1);
        Ok(Read([buf[cursor + 1..cursor + 1 + length]] + rest.value, rest.next))
  }

  /** `readName` */
  function ReadName(buf: Bytes, off: nat): Result<Read<Name>> {
    var r :- ScanName(buf, off, {}, 0);
    Ok(Read(NameOf(r.value), r.next))
  }

  function ReadKeys(buf: Bytes, off: nat, end: nat): (r: Result<Read<seq<int>>>)
    ensures r.Ok? ==> off <= r.value.next
    decreases end - off
  {
    if off >= end then Ok(Read([], off))
    else
      var key :- ReadU16(buf, off);
      var rest :- ReadKeys(buf, key.next, end);
      Ok(Read([key.value] + rest.value, rest.next))
  }

  function ReadChunks(buf: Bytes, off: nat, end: nat): (r: Result<Read<seq<Bytes>>>)
    ensures r.Ok? ==> off <= r.value.next
    decreases end - off
  {
    if off >= end then Ok(Read([], off))
    else
      var length :- ReadU8(buf, off);
      var chunk :- Take(buf, length.next, length.value);
      var rest :- ReadChunks(buf, chunk.next, end);
      Ok(Read([chunk.value] + rest.value, rest.next))
  }

  function ReadFixed(buf: Bytes, off: nat, end: nat, width: nat): (r: Result<Read<seq<Bytes>>>)
    requires width > 0
    ensures r.Ok? ==> off <= r.value.next
    decreases end - off
  {
    if off >= end then Ok(Read([], off))
    else
      var item :- Take(buf, off, width);
      var rest :- ReadFixed(buf, item.next, end, width);
      Ok(Read([item.value] + rest.value, rest.next))
  }

  /** `readServiceParam` */
  function ReadParam(buf: Bytes, key: nat, off: nat, end: nat): (r: Result<Read<Param>>)
    requires off <= end
    ensures r.Ok? ==> off <= r.value.next
  {
    match key
    case 0 =>
      var keys :- ReadKeys(buf, off, end);
      var _ :- Check(ValidMandatory(keys.value, true));
      Ok(Read(Mandatory(keys.value), keys.next))
    case 1 => var ids :- ReadChunks(buf, off, end); Ok(Read(Alpn(ids.value), ids.next))
    case 2 => var _ :- Check(off == end); Ok(Read(NoDefaultAlpn, off))
    case 3 =>
      var port :- ReadU16(buf, off);
      var _ :- Check(port.next == end);
      Ok(Read(Port(port.value), end))
    case 4 => var items :- ReadFixed(buf, off, end, 4); Ok(Read(Ipv4Hint(items.value), items.next))
    case 5 =>
      var length :- ReadU16(buf, off);
      var data :- Take(buf, length.next, length.value);
      var _ :- Check(data.next == end);
      Ok(Read(Ech(data.value), end))
    case 6 => var items :- ReadFixed(buf, off, end, 16); Ok(Read(Ipv6Hint(items.value), items.next))
    case _ => var value :- Take(buf, off, end - off); Ok(Read(Unknown(key, value.value), value.next))
  }

  function ReadParams(buf: Bytes, off: nat, end: nat, previous: int): Result<Read<seq<Param>>>
    decreases end - off
  {
    if off >= end then Ok(Read([], off))
    else
      var key :- ReadU16(buf, off);
      var length :- ReadU16(buf, key.next);
      var _ :- Check(key.value > previous);
      var param :- ReadParam(buf, key.value, length.next, length.next + length.value);
      var rest :- ReadParams(buf, param.next, end, key.value);
      Ok(Read([param.value] + rest.value, rest.next))
  }

  /** `readServiceBinding` */
  function ReadBinding(buf: Bytes, off: nat, end: nat): Result<Read<Binding>> {
    var priority :- ReadU16(buf, off);
    var target :- ReadName(buf, priority.next);
    var params :- ReadParams(buf, target.next, end, -1);
    var _ :- Check(ValidParams(params.value));
    Ok(Read(Binding(priority.value, target.value, params.value), params.next))
  }

  /** `readRecordData` */
  function ReadData(buf: Bytes, kind: nat, off: nat, end: nat): Result<Read<Data>> {
    match kind
    case 1 => var a :- Take(buf, off, 4); Ok(Read(A(a.value), a.next))
    case 28 => var a :- Take(buf, off, 16); Ok(Read(Aaaa(a.value), a.next))
    case 5 => var n :- ReadName(buf, off); Ok(Read(Cname(n.value), n.next))
    case 16 => var t :- ReadChunks(buf, off, end); Ok(Read(Txt(Chunks(t.value)), t.next))
    case 65 => var b :- ReadBinding(buf, off, end); Ok(Read(Https(b.value), b.next))
    case 64 => var b :- ReadBinding(buf, off, end); Ok(Read(Svcb(b.value), b.next))
    case _ => Err
  }

  /** `readRecord` */
  function ReadRecord(buf: Bytes, off: nat): Result<Read<Record>> {
    var name :- ReadName(buf, off);
    var kind :- ReadU16(buf, name.next);
    var class_ :- ReadU16(buf, kind.next);
    var ttl :- ReadU32(buf, class_.next);
    var length :- ReadU16(buf, ttl.next);
    var _ :- Check(class_.value == CLASS_IN);
    var data :- ReadData(buf, kind.value, length.next, length.next + length.value);
    var _ :- Check(data.next == length.next + length.value);
    Ok(Read(Record(name.value, ttl.value, data.value), data.next))
  }

  function ReadRecords(buf: Bytes, off: nat, count: nat): Result<Read<seq<Record>>>
    decreases count
  {
    if count == 0 then Ok(Read([], off))
    else
      var first :- ReadRecord(buf, off);
      var rest :- ReadRecords(buf, first.next, count - 1);
      Ok(Read([first.value] + rest.value, rest.next))
  }

  function SkipQuestions(buf: Bytes, off: nat, count: nat): Result<nat>
    decreases count
  {
    if count == 0 then Ok(off)
    else
      var name :- ReadName(buf, off);
      var rest :- Take(buf, name.next, 4);
      SkipQuestions(buf, rest.next, count - 1)
  }

  function SkipRecords(buf: Bytes, off: nat, count: nat): Result<nat>
    decreases count
  {
    if count == 0 then Ok(off)
    else
      var name :- ReadName(buf, off);
      var head :- Take(buf, name.next, 8);
      var length :- ReadU16(buf, head.next);
      var data :- Take(buf, length.next, length.value);
      SkipRecords(buf, data.next, count - 1)
  }

  /** `parseDnsResponse` */
  function ParseResponse(buf: Bytes): Result<seq<Record>> {
    var _ :- Check(|buf| >= 12);
    var questions := Be16(buf[4], buf[5]);
    var answers := Be16(buf[6], buf[7]);
    var others := Be16(buf[8], buf[9]) + Be16(buf[10], buf[11]);
    var start :- SkipQuestions(buf, 12, questions);
    var records :- ReadRecords(buf, start, answers);
    var end :- SkipRecords(buf, records.next, others);
    var _ :- Check(end == |buf|);
    Ok(records.value)
  }
}
