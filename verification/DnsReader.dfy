/** The reader as it runs: one cursor over the packet, a loop that follows
    compression pointers, and loops over lists up to a record's end. */
module DnsReader {
  import opened Bytes
  import opened DnsMessage

  /** What the name loop has read so far, and how the rest will complete it. */
  ghost predicate ScanResumes(labels: Labels, rest: Result<Read<Labels>>, whole: Result<Read<Labels>>,
                              followed: bool, next: nat) {
    match rest
    case Err => whole.Err?
    case Ok(x) => whole == Ok(Read(labels + x.value, if followed then next else x.next))
  }

  lemma ScanStep(labels: Labels, part: Label, now: Result<Read<Labels>>, rest: Result<Read<Labels>>,
                 whole: Result<Read<Labels>>, followed: bool, next: nat)
    requires ScanResumes(labels, now, whole, followed, next)
    requires match rest case Err => now.Err? case Ok(x) => now == Ok(Read([part] + x.value, x.next))
    ensures ScanResumes(labels + [part], rest, whole, followed, next)
  {
    if rest.Ok? {
      assert labels + [part] + rest.value.value == labels + ([part] + rest.value.value);
    }
  }

  /** One step of a scan: what ends it, a pointer, and a label. */
  lemma ScanEnds(buf: Bytes, cursor: nat, seen: set<nat>, size: nat)
    ensures cursor >= |buf| ==> ScanName(buf, cursor, seen, size).Err?
    ensures cursor < |buf| && buf[cursor] == 0 ==> ScanName(buf, cursor, seen, size) == Ok(Read([], cursor + 1))
    ensures cursor + 1 == |buf| && buf[cursor] >= 0xc0 ==> ScanName(buf, cursor, seen, size).Err?
  {
  }

  lemma ScanPointer(buf: Bytes, cursor: nat, seen: set<nat>, size: nat, pointer: nat)
    requires cursor + 1 < |buf| && buf[cursor] >= 0xc0 && pointer == Be16(buf[cursor], buf[cursor + 1]) % 0x4000
    ensures pointer in seen ==> ScanName(buf, cursor, seen, size).Err?
    ensures pointer !in seen ==>
              ScanName(buf, cursor, seen, size) ==
              var target := ScanName(buf, pointer, seen + {pointer}, size);
              if target.Err? then Err else Ok(Read(target.value.value, cursor + 2))
  {
    hide Be16;
  }

  lemma ScanLabel(buf: Bytes, cursor: nat, seen: set<nat>, size: nat)
    requires cursor < |buf| && 0 < buf[cursor] < 0xc0
    ensures var length: int := buf[cursor];
            if length > 63 || size + length + 1 >= 255 || cursor + 1 + length > |buf|
            then ScanName(buf, cursor, seen, size).Err?
            else
              ScanName(buf, cursor, seen, size) ==
              var rest := ScanName(buf, cursor + 1 + length, seen, size + length + 1);
              if rest.Err? then Err
              else Ok(Read([buf[cursor + 1..cursor + 1 + length]] + rest.value.value, rest.value.next))
  {
  }

  class Reader {
    const bytes: Bytes
    var offset: nat

    constructor (packet: Bytes)
      ensures bytes == packet && offset == 0
    {
      bytes := packet;
      offset := 0;
    }

    method GetU8() returns (r: Result<nat>)
      modifies this
      ensures Reads(r, offset, ReadU8(bytes, old(offset)))
    {
      if offset >= |bytes| {
        return Err;
      }
      r := Ok(bytes[offset]);
      offset := offset + 1;
    }

    method GetU16() returns (r: Result<nat>)
      modifies this
      ensures Reads(r, offset, ReadU16(bytes, old(offset)))
    {
      if offset + 1 >= |bytes| {
        return Err;
      }
      r := Ok(Be16(bytes[offset], bytes[offset + 1]));
      offset := offset + 2;
    }

    method GetU32() returns (r: Result<nat>)
      modifies this
      ensures Reads(r, offset, ReadU32(bytes, old(offset)))
    {
      if offset + 3 >= |bytes| {
        return Err;
      }
      r := Ok(Be32(bytes[offset], bytes[offset + 1], bytes[offset + 2], bytes[offset + 3]));
      offset := offset + 4;
    }

    method GetBytes(length: nat) returns (r: Result<Bytes>)
      modifies this
      ensures Reads(r, offset, Take(bytes, old(offset), length))
    {
      if offset + length > |bytes| {
        return Err;
      }
      r := Ok(bytes[offset..offset + length]);
      offset := offset + length;
    }

    /** `readName`: it terminates on every packet because a pointer value is
        never followed twice. */
    method GetName() returns (r: Result<Name>)
      modifies this
      ensures Reads(r, offset, ReadName(bytes, old(offset)))
    {
      hide Be16, NameOf, ScanName;
      var labels: Labels := [];
      var cursor: nat, consumed: nat, followed: bool, nameLength: nat := offset, 0, false, 0;
      var seen: set<nat> := {};
      ghost var whole := ScanName(bytes, offset, {}, 0);
      assert whole.Ok? ==> [] + whole.value.value == whole.value.value;
      while true
        invariant offset == old(offset)
        invariant !followed ==> cursor == offset + consumed
        invariant ScanResumes(labels, ScanName(bytes, cursor, seen, nameLength), whole, followed, offset + consumed)
        decreases Pointers() - seen, |bytes| - cursor
      {
        ScanEnds(bytes, cursor, seen, nameLength);
        if cursor >= |bytes| {
          return Err;
        }
        var length: int := bytes[cursor];
        if length >= 0xc0 {
          if cursor + 1 >= |bytes| {
            return Err;
          }
          var pointer := Be16(length, bytes[cursor + 1]) % 0x4000;
          ScanPointer(bytes, cursor, seen, nameLength, pointer);
          if pointer in seen {
            return Err;
          }
          assert IsPointer(pointer) && pointer in Pointers() - seen;
          seen := seen + {pointer};
          if !followed {
            consumed := consumed + 2;
          }
          cursor := pointer;
          followed := true;
          continue;
        }
        if length == 0 {
          if !followed {
            consumed := consumed + 1;
          }
          assert labels + [] == labels;
          break;
        }
        ScanLabel(bytes, cursor, seen, nameLength);
        if length > 63 || nameLength + length + 1 >= 255 || cursor + 1 + length > |bytes| {
          return Err;
        }
        var part := bytes[cursor + 1..cursor + 1 + length];
        ScanStep(labels, part, ScanName(bytes, cursor, seen, nameLength),
                 ScanName(bytes, cursor + 1 + length, seen, nameLength + length + 1),
                 whole, followed, offset + consumed);
        nameLength := nameLength + length + 1;
        labels := labels + [part];
        cursor := cursor + 1 + length;
        if !followed {
          consumed := consumed + 1 + length;
        }
      }
      offset := offset + consumed;
      r := Ok(NameOf(labels));
    }

    method GetKeys(end: nat) returns (r: Result<seq<int>>)
      modifies this
      ensures Reads(r, offset, ReadKeys(bytes, old(offset), end))
    {
      var keys: seq<int> := [];
      ghost var whole := ReadKeys(bytes, offset, end);
      ResumesStart(whole);
      while offset < end
        invariant Resumes(keys, ReadKeys(bytes, offset, end), whole)
      {
        ghost var now := ReadKeys(bytes, offset, end);
        var key :- GetU16();
        ResumesStep(keys, key, now, ReadKeys(bytes, offset, end), whole);
        keys := keys + [key];
      }
      assert keys + [] == keys;
      r := Ok(keys);
    }

    method GetChunks(end: nat) returns (r: Result<seq<Bytes>>)
      modifies this
      ensures Reads(r, offset, ReadChunks(bytes, old(offset), end))
    {
      var chunks: seq<Bytes> := [];
      ghost var whole := ReadChunks(bytes, offset, end);
      ResumesStart(whole);
      while offset < end
        invariant Resumes(chunks, ReadChunks(bytes, offset, end), whole)
      {
        ghost var now := ReadChunks(bytes, offset, end);
        var length :- GetU8();
        var chunk :- GetBytes(length);
        ResumesStep(chunks, chunk, now, ReadChunks(bytes, offset, end), whole);
        chunks := chunks + [chunk];
      }
      assert chunks + [] == chunks;
      r := Ok(chunks);
    }

    method GetFixed(end: nat, width: nat) returns (r: Result<seq<Bytes>>)
      requires width > 0
      modifies this
      ensures Reads(r, offset, ReadFixed(bytes, old(offset), end, width))
    {
      var items: seq<Bytes> := [];
      ghost var whole := ReadFixed(bytes, offset, end, width);
      ResumesStart(whole);
      while offset < end
        invariant Resumes(items, ReadFixed(bytes, offset, end, width), whole)
      {
        ghost var now := ReadFixed(bytes, offset, end, width);
        var item :- GetBytes(width);
        ResumesStep(items, item, now, ReadFixed(bytes, offset, end, width), whole);
        items := items + [item];
      }
      assert items + [] == items;
      r := Ok(items);
    }

    method GetServiceParam(key: nat, end: nat) returns (r: Result<Param>)
      requires offset <= end
      modifies this
      ensures Reads(r, offset, ReadParam(bytes, key, old(offset), end))
    {
      hide ReadKeys, ReadChunks, ReadFixed, ValidMandatory;
      match key
      case 0 =>
        var keys :- GetKeys(end);
        if !ValidMandatory(keys, true) { return Err; }
        r := Ok(Mandatory(keys));
      case 1 =>
        var ids :- GetChunks(end);
        r := Ok(Alpn(ids));
      case 2 =>
        if offset != end { return Err; }
        r := Ok(NoDefaultAlpn);
      case 3 =>
        var port :- GetU16();
        if offset != end { return Err; }
        r := Ok(Port(port));
      case 4 =>
        var items :- GetFixed(end, 4);
        r := Ok(Ipv4Hint(items));
      case 5 =>
        var length :- GetU16();
        var data :- GetBytes(length);
        if offset != end { return Err; }
        r := Ok(Ech(data));
      case 6 =>
        var items :- GetFixed(end, 16);
        r := Ok(Ipv6Hint(items));
      case _ =>
        var value :- GetBytes(end - offset);
        r := Ok(Unknown(key, value));
    }

    method GetServiceParams(end: nat) returns (r: Result<seq<Param>>)
      modifies this
      ensures Reads(r, offset, ReadParams(bytes, old(offset), end, -1))
    {
      hide ReadParam;
      var params: seq<Param> := [];
      var previous: int := -1;
      ghost var whole := ReadParams(bytes, offset, end, -1);
      ResumesStart(whole);
      while offset < end
        invariant Resumes(params, ReadParams(bytes, offset, end, previous), whole)
      {
        ghost var now := ReadParams(bytes, offset, end, previous);
        var key :- GetU16();
        var length :- GetU16();
        if key <= previous {
          return Err;
        }
        previous := key;
        var param :- GetServiceParam(key, offset + length);
        ResumesStep(params, param, now, ReadParams(bytes, offset, end, previous), whole);
        params := params + [param];
      }
      assert params + [] == params;
      r := Ok(params);
    }

    method GetServiceBinding(end: nat) returns (r: Result<Binding>)
      modifies this
      ensures Reads(r, offset, ReadBinding(bytes, old(offset), end))
    {
      hide ReadName, ReadParams, ValidParams;
      var priority :- GetU16();
      var target :- GetName();
      var params :- GetServiceParams(end);
      if !ValidParams(params) {
        return Err;
      }
      r := Ok(Binding(priority, target, params));
    }

    method GetRecordData(kind: nat, end: nat) returns (r: Result<Data>)
      modifies this
      ensures Reads(r, offset, ReadData(bytes, kind, old(offset), end))
    {
      hide ReadName, ReadChunks, ReadBinding;
      match kind
      case 1 =>
        var address :- GetBytes(4);
        r := Ok(A(address));
      case 28 =>
        var address :- GetBytes(16);
        r := Ok(Aaaa(address));
      case 5 =>
        var cname :- GetName();
        r := Ok(Cname(cname));
      case 16 =>
        var chunks :- GetChunks(end);
        r := Ok(Txt(Chunks(chunks)));
      case 65 =>
        var binding :- GetServiceBinding(end);
        r := Ok(Https(binding));
      case 64 =>
        var binding :- GetServiceBinding(end);
        r := Ok(Svcb(binding));
      case _ => r := Err;
    }

    method GetRecord() returns (r: Result<Record>)
      modifies this
      ensures Reads(r, offset, ReadRecord(bytes, old(offset)))
    {
      hide ReadName, ReadU16, ReadU32, ReadData;
      var name :- GetName();
      var kind :- GetU16();
      var class_ :- GetU16();
      var ttl :- GetU32();
      var length :- GetU16();
      var end := offset + length;
      if class_ != CLASS_IN {
        return Err;
      }
      var data :- GetRecordData(kind, end);
      if offset != end {
        return Err;
      }
      r := Ok(Record(name, ttl, data));
    }

    method GetRecords(count: nat) returns (r: Result<seq<Record>>)
      modifies this
      ensures Reads(r, offset, ReadRecords(bytes, old(offset), count))
    {
      hide ReadRecord;
      var records: seq<Record> := [];
      ghost var whole := ReadRecords(bytes, offset, count);
      ResumesStart(whole);
      for i := 0 to count
        invariant Resumes(records, ReadRecords(bytes, offset, count - i), whole)
      {
        ghost var now := ReadRecords(bytes, offset, count - i);
        var record :- GetRecord();
        ResumesStep(records, record, now, ReadRecords(bytes, offset, count - i - 1), whole);
        records := records + [record];
      }
      assert records + [] == records;
      r := Ok(records);
    }

    method PassQuestions(count: nat) returns (r: Result<()>)
      modifies this
      ensures var spec := SkipQuestions(bytes, old(offset), count);
              r.Ok? == spec.Ok? && (r.Ok? ==> offset == spec.value)
    {
      hide ReadName;
      for i := 0 to count
        invariant SkipQuestions(bytes, offset, count - i) == SkipQuestions(bytes, old(offset), count)
      {
        var _ :- GetName();
        var _ :- GetBytes(4);
      }
      r := Ok(());
    }

    method PassRecords(count: nat) returns (r: Result<()>)
      modifies this
      ensures var spec := SkipRecords(bytes, old(offset), count);
              r.Ok? == spec.Ok? && (r.Ok? ==> offset == spec.value)
    {
      hide ReadName;
      for i := 0 to count
        invariant SkipRecords(bytes, offset, count - i) == SkipRecords(bytes, old(offset), count)
      {
        var _ :- GetName();
        var _ :- GetBytes(8);
        var length :- GetU16();
        var _ :- GetBytes(length);
      }
      r := Ok(());
    }
  }

  /** `parseDnsResponse` */
  method ParseDnsResponse(packet: Bytes) returns (r: Result<seq<Record>>)
    ensures r == ParseResponse(packet)
  {
    hide ReadRecords, SkipQuestions, SkipRecords;
    if |packet| < 12 {
      return Err;
    }
    var reader := new Reader(packet);
    var _ := reader.GetU16();
    var _ := reader.GetU16();
    var questions := reader.GetU16();
    var answers := reader.GetU16();
    var nameServers := reader.GetU16();
    var additional := reader.GetU16();
    var _ :- reader.PassQuestions(questions.value);
    var records :- reader.GetRecords(answers.value);
    var _ :- reader.PassRecords(nameServers.value + additional.value);
    if reader.offset != |packet| {
      return Err;
    }
    r := Ok(records);
  }
}
