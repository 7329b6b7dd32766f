/** QUIC frames, section 19 of RFC 9000: encoders and the parser. */
module QuicFrames {
  import opened Bytes
  import opened Postcard
  import opened Varint

  datatype AckRange = AckRange(gap: nat, length: nat)

  datatype Frame =
    | Padding(length: nat)
    | Ping
    | Ack(largest: nat, delay: nat, first: nat, ranges: seq<AckRange>)
    | AckEcn(largest: nat, delay: nat, first: nat, ranges: seq<AckRange>, ect0: nat, ect1: nat, ce: nat)
    | Crypto(offset: nat, data: Bytes)
    | Stream(id: nat, offset: nat, data: Bytes, fin: bool)
    | MaxData(maximum: nat)
    | MaxStreamData(id: nat, maximum: nat)
    | NewConnectionId(number: nat, retire: nat, connection: Bytes, token: Bytes)
    | TransportClose(code: nat, frameType: nat, reason: Bytes)
    | ApplicationClose(code: nat, reason: Bytes)
    | HandshakeDone

  // ---------------------------------------------------------------- encoding

  function Zeros(n: nat): (r: Bytes)
    ensures |r| == n && forall i :: 0 <= i < n ==> r[i] == 0
  {
    seq(n, _ => 0)
  }

  function EncodeRanges(ranges: seq<AckRange>): Result<Bytes> {
    if ranges == [] then Ok([])
    else
      var gap :- EncodeVarInt(ranges[0].gap);
      var length :- EncodeVarInt(ranges[0].length);
      var rest :- EncodeRanges(ranges[1..]);
      Ok(gap + (length + rest))
  }

  function EncodeAck(largest: nat, delay: nat, first: nat, ranges: seq<AckRange>): Result<Bytes> {
    var _ :- Check(delay <= MAX_SAFE);
    var a :- EncodeVarInt(largest);
    var b :- EncodeVarInt(delay);
    var c :- EncodeVarInt(|ranges|);
    var d :- EncodeVarInt(first);
    var e :- EncodeRanges(ranges);
    Ok([0x02] + (a + (b + (c + (d + e)))))
  }

  function StreamType(offset: nat, fin: bool): byte {
    0x0a + (if offset != 0 then 4 else 0) + (if fin then 1 else 0)
  }

  function EncodeStream(id: nat, offset: nat, data: Bytes, fin: bool): Result<Bytes> {
    var a :- EncodeVarInt(id);
    var b :- if offset != 0 then EncodeVarInt(offset) else Ok([]);
    var c :- EncodeVarInt(|data|);
    Ok([StreamType(offset, fin)] + (a + (b + (c + data))))
  }

  /** A tag, one integer, and length-prefixed bytes. */
  function EncodeBlob(tag: byte, value: nat, data: Bytes): Result<Bytes> {
    var a :- EncodeVarInt(value);
    var b :- EncodeVarInt(|data|);
    Ok([tag] + (a + (b + data)))
  }

  function EncodeTransportClose(code: nat, frameType: nat, reason: Bytes): Result<Bytes> {
    var a :- EncodeVarInt(code);
    var b :- EncodeVarInt(frameType);
    var c :- EncodeVarInt(|reason|);
    Ok([0x1c] + (a + (b + (c + reason))))
  }

  function EncodeMaxStreamData(id: nat, maximum: nat): Result<Bytes> {
    var a :- EncodeVarInt(id);
    var b :- EncodeVarInt(maximum);
    Ok([0x11] + (a + b))
  }

  /** The encoder of each kind of frame that has one. */
  function EncodeFrame(f: Frame): Result<Bytes> {
    match f
    case Padding(length) => if length <= MAX_SAFE then Ok(Zeros(length)) else Err
    case Ping => Ok([0x01])
    case Ack(largest, delay, first, ranges) => EncodeAck(largest, delay, first, ranges)
    case Crypto(offset, data) => EncodeBlob(0x06, offset, data)
    case Stream(id, offset, data, fin) => EncodeStream(id, offset, data, fin)
    case MaxData(maximum) => var a :- EncodeVarInt(maximum); Ok([0x10] + a)
    case MaxStreamData(id, maximum) => EncodeMaxStreamData(id, maximum)
    case TransportClose(code, frameType, reason) => EncodeTransportClose(code, frameType, reason)
    case ApplicationClose(code, reason) => EncodeBlob(0x1d, code, reason)
    case _ => Err
  }

  /** A packet's payload: frames encoded one after the other. */
  function EncodeFrames(frames: seq<Frame>): Result<Bytes> {
    if frames == [] then Ok([])
    else
      var first :- EncodeFrame(frames[0]);
      var rest :- EncodeFrames(frames[1..]);
      Ok(first + rest)
  }

  // ----------------------------------------------------------------- parsing

  /** The end of the run of zero bytes that starts at `off`. */
  function PaddingEnd(buf: Bytes, off: nat): (r: nat)
    ensures off <= r && (off <= |buf| ==> r <= |buf|)
    ensures off < |buf| && buf[off] == 0 ==> off < r
    decreases |buf| - off
  {
    if off < |buf| && buf[off] == 0 then PaddingEnd(buf, off + 1) else off
  }

  /** `validateAckRange`: the smallest number of the next range. */
  function NextSmallest(smallest: nat, gap: nat, length: nat): Result<nat> {
    if smallest < gap + 2 || length > smallest - gap - 2 then Err else Ok(smallest - gap - 2 - length)
  }

  function ParseRanges(buf: Bytes, off: nat, count: nat, smallest: nat): (r: Result<Read<seq<AckRange>>>)
    ensures r.Ok? && off <= |buf| ==> off <= r.value.next <= |buf|
    decreases count
  {
    if count == 0 then Ok(Read([], off))
    else
      var gap :- ReadVarInt(buf, off);
      var length :- ReadVarInt(buf, gap.next);
      var next :- NextSmallest(smallest, gap.value, length.value);
      var rest :- ParseRanges(buf, length.next, count - 1, next);
      Ok(Read([AckRange(gap.value, length.value)] + rest.value, rest.next))
  }

  function ParseAck(buf: Bytes, off: nat, ecn: bool): (r: Result<Read<Frame>>)
    ensures r.Ok? ==> off < r.value.next <= |buf|
  {
    var largest :- ReadVarInt(buf, off + 1);
    var delay :- ReadNumber(buf, largest.next);
    var count :- ReadNumber(buf, delay.next);
    var first :- ReadVarInt(buf, count.next);
    var _ :- Check(first.value <= largest.value);
    var ranges :- ParseRanges(buf, first.next, count.value, largest.value - first.value);
    if !ecn then Ok(Read(Ack(largest.value, delay.value, first.value, ranges.value), ranges.next))
    else
      var ect0 :- ReadNumber(buf, ranges.next);
      var ect1 :- ReadNumber(buf, ect0.next);
      var ce :- ReadNumber(buf, ect1.next);
      Ok(Read(AckEcn(largest.value, delay.value, first.value, ranges.value, ect0.value, ect1.value, ce.value), ce.next))
  }

  function ParseCrypto(buf: Bytes, off: nat): (r: Result<Read<Frame>>)
    ensures r.Ok? ==> off < r.value.next <= |buf|
  {
    var offset :- ReadNumber(buf, off + 1);
    var length :- ReadNumber(buf, offset.next);
    var data :- Take(buf, length.next, length.value);
    Ok(Read(Crypto(offset.value, data.value), data.next))
  }

  function ParseStream(buf: Bytes, off: nat, frameType: nat): (r: Result<Read<Frame>>)
    ensures r.Ok? ==> off < r.value.next <= |buf|
  {
    var id :- ReadNumber(buf, off + 1);
    var offset :- if frameType / 4 % 2 == 1 then ReadNumber(buf, id.next) else Ok(Read(0, id.next));
    var length :- if frameType / 2 % 2 == 1 then ReadNumber(buf, offset.next)
                  else Ok(Read(|buf| - offset.next, offset.next));
    var data :- Take(buf, length.next, length.value);
    Ok(Read(Stream(id.value, offset.value, data.value, frameType % 2 == 1), data.next))
  }

  function ParseMaxStreamData(buf: Bytes, off: nat): (r: Result<Read<Frame>>)
    ensures r.Ok? ==> off < r.value.next <= |buf|
  {
    var id :- ReadNumber(buf, off + 1);
    var maximum :- ReadNumber(buf, id.next);
    Ok(Read(MaxStreamData(id.value, maximum.value), maximum.next))
  }

  function ParseNewConnectionId(buf: Bytes, off: nat): (r: Result<Read<Frame>>)
    ensures r.Ok? ==> off < r.value.next <= |buf|
  {
    var number :- ReadVarInt(buf, off + 1);
    var retire :- ReadVarInt(buf, number.next);
    var length :- ReadU8(buf, retire.next);
    var _ :- Check(length.value <= 20);
    var connection :- Take(buf, length.next, length.value);
    var token :- Take(buf, connection.next, 16);
    Ok(Read(NewConnectionId(number.value, retire.value, connection.value, token.value), token.next))
  }

  function ParseClose(buf: Bytes, off: nat, transport: bool): (r: Result<Read<Frame>>)
    ensures r.Ok? ==> off < r.value.next <= |buf|
  {
    var code :- ReadNumber(buf, off + 1);
    var closed :- if transport then ReadNumber(buf, code.next) else Ok(Read(0, code.next));
    var length :- ReadNumber(buf, closed.next);
    var reason :- Take(buf, length.next, length.value);
    Ok(Read(if transport then TransportClose(code.value, closed.value, reason.value)
            else ApplicationClose(code.value, reason.value), reason.next))
  }

  /** `readQuicFrameType` */
  function FrameType(buf: Bytes, off: nat): Result<nat>
    requires off < |buf|
  {
    if buf[off] < 0x40 then Ok(buf[off])
    else
      var wide :- ReadNumber(buf, off);
      var _ :- Check(wide.value > 0x3f);
      Ok(wide.value)
  }

  /** `isStreamFrameType`: bits 3 to 7, of wide types too. */
  predicate IsStreamType(frameType: nat) { frameType / 8 % 32 == 1 }

  function ParseFrame(buf: Bytes, off: nat): (r: Result<Read<Frame>>)
    requires off < |buf|
    ensures r.Ok? ==> off < r.value.next <= |buf|
  {
    var t :- FrameType(buf, off);
    if t == 0x00 then
      assert buf[off] == 0;
      Ok(Read(Padding(PaddingEnd(buf, off) - off), PaddingEnd(buf, off)))
    else if t == 0x01 then Ok(Read(Ping, off + 1))
    else if t == 0x06 then ParseCrypto(buf, off)
    else if t == 0x02 || t == 0x03 then ParseAck(buf, off, t == 0x03)
    else if IsStreamType(t) then ParseStream(buf, off, t)
    else if t == 0x10 then var maximum :- ReadNumber(buf, off + 1); Ok(Read(MaxData(maximum.value), maximum.next))
    else if t == 0x11 then ParseMaxStreamData(buf, off)
    else if t == 0x18 then ParseNewConnectionId(buf, off)
    else if t == 0x1c || t == 0x1d then ParseClose(buf, off, t == 0x1c)
    else if t == 0x1e then Ok(Read(HandshakeDone, off + 1))
    else Err
  }

  /** A frame and the bytes it was parsed from. */
  datatype Parsed = Parsed(frame: Frame, start: nat, end: nat)

  function ParseFrames(buf: Bytes, off: nat): Result<seq<Parsed>>
    decreases |buf| - off
  {
    if off >= |buf| then Ok([])
    else
      var first :- ParseFrame(buf, off);
      var rest :- ParseFrames(buf, first.next);
      Ok([Parsed(first.value, off, first.next)] + rest)
  }

  // ------------------------------------------------------- the parser's loops

  /** `parsePaddingFrame` */
  method ParsePaddingFrame(buf: Bytes, offset: nat) returns (frame: Frame, end: nat)
    requires offset <= |buf|
    ensures end == PaddingEnd(buf, offset) && frame == Padding(end - offset)
  {
    end := offset;
    while end < |buf| && buf[end] == 0
      invariant offset <= end <= |buf|
      invariant PaddingEnd(buf, offset) == PaddingEnd(buf, end)
    {
      end := end + 1;
    }
    frame := Padding(end - offset);
  }

  /** The loop of `parseAckFrame`. */
  method ParseAckRanges(buf: Bytes, offset: nat, count: nat, smallest: nat) returns (r: Result<Read<seq<AckRange>>>)
    ensures r == ParseRanges(buf, offset, count, smallest)
  {
    hide ReadVarInt, NextSmallest;
    var pos, low := offset, smallest;
    var ranges: seq<AckRange> := [];
    ghost var whole := ParseRanges(buf, offset, count, smallest);
    ResumesStart(whole);
    for index := 0 to count
      invariant Resumes(ranges, ParseRanges(buf, pos, count - index, low), whole)
    {
      var now := ParseRanges(buf, pos, count - index, low);
      var gap :- ReadVarInt(buf, pos);
      var length :- ReadVarInt(buf, gap.next);
      var next :- NextSmallest(low, gap.value, length.value);
      ResumesStep(ranges, AckRange(gap.value, length.value), now,
                  ParseRanges(buf, length.next, count - index - 1, next), whole);
      ranges := ranges + [AckRange(gap.value, length.value)];
      pos, low := length.next, next;
    }
    assert ranges + [] == ranges;
    r := Ok(Read(ranges, pos));
  }

  method ParseAckFrame(buf: Bytes, offset: nat, ecn: bool) returns (r: Result<Read<Frame>>)
    ensures r == ParseAck(buf, offset, ecn)
  {
    hide ReadVarInt, ReadNumber, ParseRanges;
    var largest :- ReadVarInt(buf, offset + 1);
    var delay :- ReadNumber(buf, largest.next);
    var count :- ReadNumber(buf, delay.next);
    var first :- ReadVarInt(buf, count.next);
    if first.value > largest.value {
      return Err;
    }
    var parsed := ParseAckRanges(buf, first.next, count.value, largest.value - first.value);
    var ranges :- parsed;
    if !ecn {
      return Ok(Read(Ack(largest.value, delay.value, first.value, ranges.value), ranges.next));
    }
    var ect0 :- ReadNumber(buf, ranges.next);
    var ect1 :- ReadNumber(buf, ect0.next);
    var ce :- ReadNumber(buf, ect1.next);
    r := Ok(Read(AckEcn(largest.value, delay.value, first.value, ranges.value, ect0.value, ect1.value, ce.value),
                 ce.next));
  }

  method ParseOne(buf: Bytes, offset: nat) returns (r: Result<Read<Frame>>)
    requires offset < |buf|
    ensures r == ParseFrame(buf, offset)
  {
    hide FrameType, ParseAck, PaddingEnd, ReadNumber;
    var t :- FrameType(buf, offset);
    if t == 0x00 {
      var frame, end := ParsePaddingFrame(buf, offset);
      return Ok(Read(frame, end));
    }
    if t == 0x02 || t == 0x03 {
      r := ParseAckFrame(buf, offset, t == 0x03);
      return;
    }
    if t == 0x01 { return Ok(Read(Ping, offset + 1)); }
    if t == 0x06 { return ParseCrypto(buf, offset); }
    if IsStreamType(t) { return ParseStream(buf, offset, t); }
    if t == 0x10 {
      var maximum :- ReadNumber(buf, offset + 1);
      return Ok(Read(MaxData(maximum.value), maximum.next));
    }
    if t == 0x11 { return ParseMaxStreamData(buf, offset); }
    if t == 0x18 { return ParseNewConnectionId(buf, offset); }
    if t == 0x1c || t == 0x1d { return ParseClose(buf, offset, t == 0x1c); }
    if t == 0x1e { return Ok(Read(HandshakeDone, offset + 1)); }
    r := Err;
  }

  /** `parseQuicFrames`, with the offset it stops at. */
  method ParseQuicFrames(buf: Bytes, offset: nat) returns (r: Result<Read<seq<Parsed>>>)
    ensures r == if offset > |buf| then Err
                 else if ParseFrames(buf, offset).Err? then Err
                 else Ok(Read(ParseFrames(buf, offset).value, |buf|))
  {
    hide ParseFrame;
    if offset > |buf| {
      return Err;
    }
    var frames: seq<Parsed> := [];
    var pos := offset;
    ghost var whole := ParseFrames(buf, offset);
    if whole.Ok? { assert frames + whole.value == whole.value; }
    while pos < |buf|
      invariant pos <= |buf|
      invariant ParseFrames(buf, offset) ==
                if ParseFrames(buf, pos).Err? then Err else Ok(frames + ParseFrames(buf, pos).value)
      decreases |buf| - pos
    {
      var one := ParseOne(buf, pos);
      var frame :- one;
      ghost var rest := ParseFrames(buf, frame.next);
      if rest.Ok? {
        assert frames + ([Parsed(frame.value, pos, frame.next)] + rest.value)
               == frames + [Parsed(frame.value, pos, frame.next)] + rest.value;
      }
      frames := frames + [Parsed(frame.value, pos, frame.next)];
      pos := frame.next;
    }
    assert frames + [] == frames;
    r := Ok(Read(frames, pos));
  }
}
