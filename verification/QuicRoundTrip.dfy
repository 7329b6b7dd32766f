/** Parsing undoes encoding, for any concatenation of encoded frames. */
module QuicRoundTrip {
  import opened Bytes
  import opened Postcard
  import opened Varint
  import opened QuicFrames

  // ------------------------------------------------------------ which frames

  /** The ranges below `smallest` stay above zero. */
  ghost predicate ValidRanges(smallest: nat, ranges: seq<AckRange>)
    decreases |ranges|
  {
    ranges == [] ||
    (var next := NextSmallest(smallest, ranges[0].gap, ranges[0].length);
     next.Ok? && ValidRanges(next.value, ranges[1..]))
  }

  /** What every ACK encoder output satisfies. */
  ghost predicate WellFormed(f: Frame) {
    f.Ack? ==> f.first <= f.largest && ValidRanges(f.largest - f.first, f.ranges)
  }

  /** The fields the parser returns as plain numbers are safe integers. */
  ghost predicate Safe(f: Frame) {
    match f
    case Ack(_, delay, _, ranges) => delay <= MAX_SAFE && |ranges| <= MAX_SAFE
    case Crypto(offset, data) => offset <= MAX_SAFE && |data| <= MAX_SAFE
    case Stream(id, offset, data, _) => id <= MAX_SAFE && offset <= MAX_SAFE && |data| <= MAX_SAFE
    case MaxData(maximum) => maximum <= MAX_SAFE
    case MaxStreamData(id, maximum) => id <= MAX_SAFE && maximum <= MAX_SAFE
    case TransportClose(code, frameType, reason) => code <= MAX_SAFE && frameType <= MAX_SAFE && |reason| <= MAX_SAFE
    case ApplicationClose(code, reason) => code <= MAX_SAFE && |reason| <= MAX_SAFE
    case _ => true
  }

  // ---------------------------------------------------------- frame by frame

  lemma {:induction false} RangesAt(buf: Bytes, off: nat, ranges: seq<AckRange>, e: Bytes, smallest: nat)
    requires EncodeRanges(ranges) == Ok(e) && Has(buf, off, e) && ValidRanges(smallest, ranges)
    ensures ParseRanges(buf, off, |ranges|, smallest) == Ok(Read(ranges, off + |e|))
    decreases |ranges|
  {
    hide EncodeVarInt, ReadVarInt, Has;
    if ranges != [] {
      var gap := EncodeVarInt(ranges[0].gap).value;
      var length := EncodeVarInt(ranges[0].length).value;
      var rest := EncodeRanges(ranges[1..]).value;
      HasSplit(buf, off, gap, length + rest);
      HasSplit(buf, off + |gap|, length, rest);
      VarIntAt(buf, off, ranges[0].gap, gap);
      VarIntAt(buf, off + |gap|, ranges[0].length, length);
      RangesAt(buf, off + |gap| + |length|, ranges[1..], rest,
               NextSmallest(smallest, ranges[0].gap, ranges[0].length).value);
      assert [ranges[0]] + ranges[1..] == ranges;
    }
  }

  lemma HasTag(buf: Bytes, off: nat, tag: byte, rest: Bytes)
    requires Has(buf, off, [tag] + rest)
    ensures off < |buf| && buf[off] == tag && Has(buf, off + 1, rest)
  {
    HasSplit(buf, off, [tag], rest);
    HasIndex(buf, off, [tag], 0);
  }

  lemma AckAt(buf: Bytes, off: nat, f: Frame, e: Bytes)
    requires f.Ack? && WellFormed(f) && EncodeFrame(f) == Ok(e) && Has(buf, off, e)
    ensures off < |buf| && buf[off] == 0x02
    ensures ParseAck(buf, off, false) == if Safe(f) then Ok(Read(f, off + |e|)) else Err
  {
    hide EncodeVarInt, ReadVarInt, ReadNumber, EncodeRanges, ParseRanges, Has, ValidRanges;
    var a := EncodeVarInt(f.largest).value;
    var b := EncodeVarInt(f.delay).value;
    var c := EncodeVarInt(|f.ranges|).value;
    var d := EncodeVarInt(f.first).value;
    var g := EncodeRanges(f.ranges).value;
    HasTag(buf, off, 0x02, a + (b + (c + (d + g))));
    HasSplit(buf, off + 1, a, b + (c + (d + g)));
    HasSplit(buf, off + 1 + |a|, b, c + (d + g));
    HasSplit(buf, off + 1 + |a| + |b|, c, d + g);
    HasSplit(buf, off + 1 + |a| + |b| + |c|, d, g);
    VarIntAt(buf, off + 1, f.largest, a);
    NumberAt(buf, off + 1 + |a|, f.delay, b);
    NumberAt(buf, off + 1 + |a| + |b|, |f.ranges|, c);
    VarIntAt(buf, off + 1 + |a| + |b| + |c|, f.first, d);
    RangesAt(buf, off + 1 + |a| + |b| + |c| + |d|, f.ranges, g, f.largest - f.first);
  }

  lemma TakeAt(buf: Bytes, off: nat, data: Bytes)
    requires Has(buf, off, data)
    ensures Take(buf, off, |data|) == Ok(Read(data, off + |data|))
  {
  }

  lemma BlobAt(buf: Bytes, off: nat, tag: byte, value: nat, data: Bytes, e: Bytes)
    requires EncodeBlob(tag, value, data) == Ok(e) && Has(buf, off, e)
    ensures off < |buf| && buf[off] == tag
    ensures ParseCrypto(buf, off) ==
            if value <= MAX_SAFE && |data| <= MAX_SAFE then Ok(Read(Crypto(value, data), off + |e|)) else Err
    ensures ParseClose(buf, off, false) ==
            if value <= MAX_SAFE && |data| <= MAX_SAFE then Ok(Read(ApplicationClose(value, data), off + |e|)) else Err
  {
    hide EncodeVarInt, ReadVarInt, ReadNumber, Has, Take;
    var a := EncodeVarInt(value).value;
    var b := EncodeVarInt(|data|).value;
    HasTag(buf, off, tag, a + (b + data));
    HasSplit(buf, off + 1, a, b + data);
    HasSplit(buf, off + 1 + |a|, b, data);
    NumberAt(buf, off + 1, value, a);
    NumberAt(buf, off + 1 + |a|, |data|, b);
    TakeAt(buf, off + 1 + |a| + |b|, data);
  }

  lemma StreamFlags(offset: nat, fin: bool)
    ensures var t := StreamType(offset, fin);
            && IsStreamType(t) && t < 0x10
            && (t / 4 % 2 == 1 <==> offset != 0) && t / 2 % 2 == 1 && (t % 2 == 1 <==> fin)
  {
  }

  lemma StreamAt(buf: Bytes, off: nat, f: Frame, e: Bytes)
    requires f.Stream? && EncodeFrame(f) == Ok(e) && Has(buf, off, e)
    ensures off < |buf| && buf[off] == StreamType(f.offset, f.fin)
    ensures ParseStream(buf, off, buf[off]) == if Safe(f) then Ok(Read(f, off + |e|)) else Err
  {
    hide EncodeVarInt, ReadVarInt, ReadNumber, Has, Take, StreamType;
    StreamFlags(f.offset, f.fin);
    var a := EncodeVarInt(f.id).value;
    var b := if f.offset != 0 then EncodeVarInt(f.offset).value else [];
    var c := EncodeVarInt(|f.data|).value;
    HasTag(buf, off, StreamType(f.offset, f.fin), a + (b + (c + f.data)));
    HasSplit(buf, off + 1, a, b + (c + f.data));
    HasSplit(buf, off + 1 + |a|, b, c + f.data);
    HasSplit(buf, off + 1 + |a| + |b|, c, f.data);
    NumberAt(buf, off + 1, f.id, a);
    if f.offset != 0 { NumberAt(buf, off + 1 + |a|, f.offset, b); }
    NumberAt(buf, off + 1 + |a| + |b|, |f.data|, c);
    TakeAt(buf, off + 1 + |a| + |b| + |c|, f.data);
  }

  lemma TransportCloseAt(buf: Bytes, off: nat, f: Frame, e: Bytes)
    requires f.TransportClose? && EncodeFrame(f) == Ok(e) && Has(buf, off, e)
    ensures off < |buf| && buf[off] == 0x1c
    ensures ParseClose(buf, off, true) == if Safe(f) then Ok(Read(f, off + |e|)) else Err
  {
    hide EncodeVarInt, ReadVarInt, ReadNumber, Has, Take;
    var a := EncodeVarInt(f.code).value;
    var b := EncodeVarInt(f.frameType).value;
    var c := EncodeVarInt(|f.reason|).value;
    HasTag(buf, off, 0x1c, a + (b + (c + f.reason)));
    HasSplit(buf, off + 1, a, b + (c + f.reason));
    HasSplit(buf, off + 1 + |a|, b, c + f.reason);
    HasSplit(buf, off + 1 + |a| + |b|, c, f.reason);
    NumberAt(buf, off + 1, f.code, a);
    NumberAt(buf, off + 1 + |a|, f.frameType, b);
    NumberAt(buf, off + 1 + |a| + |b|, |f.reason|, c);
    TakeAt(buf, off + 1 + |a| + |b| + |c|, f.reason);
  }

  lemma MaxStreamDataAt(buf: Bytes, off: nat, f: Frame, e: Bytes)
    requires f.MaxStreamData? && EncodeFrame(f) == Ok(e) && Has(buf, off, e)
    ensures off < |buf| && buf[off] == 0x11
    ensures ParseMaxStreamData(buf, off) == if Safe(f) then Ok(Read(f, off + |e|)) else Err
  {
    hide EncodeVarInt, ReadVarInt, ReadNumber, Has;
    var a := EncodeVarInt(f.id).value;
    var b := EncodeVarInt(f.maximum).value;
    HasTag(buf, off, 0x11, a + b);
    HasSplit(buf, off + 1, a, b);
    NumberAt(buf, off + 1, f.id, a);
    NumberAt(buf, off + 1 + |a|, f.maximum, b);
  }

  lemma MaxDataAt(buf: Bytes, off: nat, f: Frame, e: Bytes)
    requires f.MaxData? && EncodeFrame(f) == Ok(e) && Has(buf, off, e)
    ensures off < |buf| && buf[off] == 0x10
    ensures ReadNumber(buf, off + 1) == if Safe(f) then Ok(Read(f.maximum, off + |e|)) else Err
  {
    hide EncodeVarInt, ReadVarInt, ReadNumber, Has;
    var a := EncodeVarInt(f.maximum).value;
    HasTag(buf, off, 0x10, a);
    NumberAt(buf, off + 1, f.maximum, a);
  }

  /** Every encoder but padding's is self-delimiting: the parser reads back the
      frame and stops right after it, or refuses a number it cannot hold. */
  lemma FrameAt(buf: Bytes, off: nat, f: Frame, e: Bytes)
    requires !f.Padding? && WellFormed(f) && EncodeFrame(f) == Ok(e) && Has(buf, off, e)
    ensures off < |buf| && buf[off] != 0
    ensures ParseFrame(buf, off) == if Safe(f) then Ok(Read(f, off + |e|)) else Err
  {
    hide EncodeVarInt, ReadNumber, EncodeAck, EncodeBlob, EncodeStream, EncodeTransportClose, EncodeMaxStreamData,
      ParseAck, ParseCrypto, ParseStream, ParseMaxStreamData, ParseNewConnectionId, ParseClose, PaddingEnd, WellFormed,
      Has, StreamType;
    match f
    case Ping =>
      assert e == [0x01] + [];
      HasTag(buf, off, 0x01, []);
    case Ack(_, _, _, _) => AckAt(buf, off, f, e);
    case Crypto(offset, data) => BlobAt(buf, off, 0x06, offset, data, e);
    case Stream(_, offset, _, fin) =>
      StreamFlags(offset, fin);
      StreamAt(buf, off, f, e);
    case MaxData(_) => MaxDataAt(buf, off, f, e);
    case MaxStreamData(_, _) => MaxStreamDataAt(buf, off, f, e);
    case TransportClose(_, _, _) => TransportCloseAt(buf, off, f, e);
    case ApplicationClose(code, reason) => BlobAt(buf, off, 0x1d, code, reason, e);
  }

  // ------------------------------------------------------------ whole payload

  /** What a list of frames comes back as: runs of padding are one frame, and
      empty padding is gone. */
  ghost function Merged(frames: seq<Frame>): seq<Frame> {
    if frames == [] then []
    else
      var rest := Merged(frames[1..]);
      if !frames[0].Padding? then [frames[0]] + rest
      else if frames[0].length == 0 then rest
      else if rest != [] && rest[0].Padding? then [Padding(frames[0].length + rest[0].length)] + rest[1..]
      else [frames[0]] + rest
  }

  ghost function Bare(parsed: seq<Parsed>): seq<Frame> {
    if parsed == [] then [] else [parsed[0].frame] + Bare(parsed[1..])
  }

  ghost function BareResult(r: Result<seq<Parsed>>): Result<seq<Frame>> {
    match r case Err => Err case Ok(parsed) => Ok(Bare(parsed))
  }

  ghost predicate AllSafe(frames: seq<Frame>) { forall f :: f in frames ==> Safe(f) }

  lemma {:induction false} ZeroRun(buf: Bytes, off: nat, n: nat)
    requires off + n <= |buf| && forall i :: off <= i < off + n ==> buf[i] == 0
    ensures PaddingEnd(buf, off) == PaddingEnd(buf, off + n)
    decreases n
  {
    if n > 0 { ZeroRun(buf, off + 1, n - 1); }
  }

  lemma BareCons(p: Parsed, rest: seq<Parsed>)
    ensures Bare([p] + rest) == [p.frame] + Bare(rest)
  {
    assert ([p] + rest)[1..] == rest;
  }

  lemma ParseZero(buf: Bytes, off: nat)
    requires off < |buf|
    ensures buf[off] == 0 ==>
              ParseFrame(buf, off) == Ok(Read(Padding(PaddingEnd(buf, off) - off), PaddingEnd(buf, off)))
    ensures ParseFrame(buf, off).Ok? && ParseFrame(buf, off).value.value.Padding? ==> buf[off] == 0
  {
    hide PaddingEnd, ReadNumber;
  }

  /** Zero bytes before a payload: one more padding frame, or a longer one. */
  lemma ZerosBefore(buf: Bytes, off: nat, n: nat, rest: Result<seq<Frame>>)
    requires n > 0 && off + n <= |buf| && forall i :: off <= i < off + n ==> buf[i] == 0
    requires BareResult(ParseFrames(buf, off + n)) == rest
    ensures BareResult(ParseFrames(buf, off)) ==
            if rest.Err? then Err
            else if rest.value != [] && rest.value[0].Padding?
            then Ok([Padding(n + rest.value[0].length)] + rest.value[1..])
            else Ok([Padding(n)] + rest.value)
  {
    hide ParseFrame, Bare, PaddingEnd;
    ZeroRun(buf, off, n);
    ParseZero(buf, off);
    var end := PaddingEnd(buf, off);
    var after := ParseFrames(buf, end);
    if off + n < |buf| && buf[off + n] == 0 {
      ParseZero(buf, off + n);
      if after.Ok? {
        BareCons(Parsed(Padding(end - (off + n)), off + n, end), after.value);
        BareCons(Parsed(Padding(end - off), off, end), after.value);
      }
    } else {
      assert end == off + n by { NoZero(buf, off + n); }
      if after.Ok? { BareCons(Parsed(Padding(n), off, end), after.value); }
      if off + n < |buf| {
        ParseZero(buf, off + n);
        var first := ParseFrame(buf, off + n);
        if first.Ok? && ParseFrames(buf, first.value.next).Ok? {
          BareCons(Parsed(first.value.value, off + n, first.value.next), ParseFrames(buf, first.value.next).value);
        }
      } else {
        assert rest == Ok([]) by { NoneBare(); }
      }
    }
  }

  lemma NoZero(buf: Bytes, off: nat)
    requires off >= |buf| || buf[off] != 0
    ensures PaddingEnd(buf, off) == off
  {
  }

  lemma NoneBare()
    ensures Bare([]) == []
  {
  }

  lemma {:induction false} FramesAt(buf: Bytes, off: nat, frames: seq<Frame>, e: Bytes)
    requires forall f :: f in frames ==> WellFormed(f)
    requires EncodeFrames(frames) == Ok(e) && Has(buf, off, e) && off + |e| == |buf|
    ensures BareResult(ParseFrames(buf, off)) == if AllSafe(frames) then Ok(Merged(frames)) else Err
    decreases |frames|
  {
    hide EncodeFrame, ParseFrame, Bare, WellFormed, Safe, Has;
    if frames == [] {
      NoneBare();
    } else {
      var f := frames[0];
      assert f in frames;
      var first := EncodeFrame(f).value;
      var rest := EncodeFrames(frames[1..]).value;
      HasSplit(buf, off, first, rest);
      FramesAt(buf, off + |first|, frames[1..], rest);
      assert AllSafe(frames) <==> Safe(f) && AllSafe(frames[1..]) by {
        assert frames == [f] + frames[1..];
      }
      if f.Padding? {
        PaddingBytes(buf, off, f.length, first);
        assert Safe(f) by { PaddingSafe(f); }
        if f.length > 0 {
          ZerosBefore(buf, off, f.length, BareResult(ParseFrames(buf, off + |first|)));
        }
      } else {
        FrameAt(buf, off, f, first);
        if Safe(f) && ParseFrames(buf, off + |first|).Ok? {
          BareCons(Parsed(f, off, off + |first|), ParseFrames(buf, off + |first|).value);
        }
      }
    }
  }

  lemma PaddingSafe(f: Frame)
    requires f.Padding?
    ensures Safe(f)
  {
  }

  lemma PaddingBytes(buf: Bytes, off: nat, n: nat, e: Bytes)
    requires EncodeFrame(Padding(n)) == Ok(e) && Has(buf, off, e)
    ensures |e| == n && off + n <= |buf| && forall i :: off <= i < off + n ==> buf[i] == 0
  {
    forall i | off <= i < off + n ensures buf[i] == 0 { HasIndex(buf, off, e, i - off); }
  }

  /** Parsing any concatenation of encoder outputs gives back the frames in
      order, up to merging padding, if and only if every number in them is a
      safe integer. */
  lemma FramesRoundTrip(frames: seq<Frame>, e: Bytes)
    requires forall f :: f in frames ==> WellFormed(f)
    requires EncodeFrames(frames) == Ok(e)
    ensures BareResult(ParseFrames(e, 0)) == if AllSafe(frames) then Ok(Merged(frames)) else Err
  {
    assert e[0..|e|] == e;
    FramesAt(e, 0, frames, e);
  }

  /** A number the encoders accept and the parser refuses. */
  lemma WideNumber()
    ensures EncodeFrames([MaxData(MAX_SAFE + 1)]).Ok?
    ensures ParseFrames(EncodeFrames([MaxData(MAX_SAFE + 1)]).value, 0).Err?
  {
    hide EncodeVarInt, ParseFrames;
    var frames := [MaxData(MAX_SAFE + 1)];
    assert frames[1..] == [];
    assert EncodeFrames(frames[1..]) == Ok([]);
    assert EncodeVarInt(MAX_SAFE + 1).Ok?;
    assert EncodeFrame(frames[0]).Ok?;
    var e := EncodeFrames(frames).value;
    assert frames[0] in frames && !Safe(frames[0]);
    FramesRoundTrip(frames, e);
  }

  // -------------------------------------------------------------------- spans

  /** The frames' spans follow each other from `start` to `end` without gaps. */
  ghost predicate Tiles(parsed: seq<Parsed>, start: nat, end: nat) {
    if parsed == [] then start == end
    else parsed[0].start == start && start < parsed[0].end && Tiles(parsed[1..], parsed[0].end, end)
  }

  /** Whatever parses, its frames tile the payload. */
  lemma {:induction false} ParsedTiles(buf: Bytes, off: nat)
    requires off <= |buf| && ParseFrames(buf, off).Ok?
    ensures Tiles(ParseFrames(buf, off).value, off, |buf|)
    decreases |buf| - off
  {
    hide ParseFrame;
    if off < |buf| {
      var first := ParseFrame(buf, off).value;
      ParsedTiles(buf, first.next);
      var rest := ParseFrames(buf, first.next).value;
      assert ([Parsed(first.value, off, first.next)] + rest)[1..] == rest;
    }
  }
}
