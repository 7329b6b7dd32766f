/** Acknowledgements: the numbers received, the ACK frame that names them
    (section 19.3.1 of RFC 9000), and what such a frame denotes. */
module QuicAck {
  import opened Bytes
  import opened Postcard
  import opened Varint
  import opened QuicFrames
  import opened QuicRoundTrip
  import QuicProtection

  const MAX_PACKET_NUMBER := QuicProtection.MAX_PACKET_NUMBER

  // ----------------------------------------------------- sorted, no duplicates

  ghost predicate Descending(s: seq<nat>) {
    |s| <= 1 || (s[0] > s[1] && Descending(s[1..]))
  }

  function InsertDown(s: seq<nat>, n: nat): (r: seq<nat>)
    ensures forall m :: m in r <==> m == n || m in s
    ensures |r| <= |s| + 1
  {
    if s == [] || n > s[0] then [n] + s
    else if n == s[0] then s
    else [s[0]] + InsertDown(s[1..], n)
  }

  /** The distinct numbers, largest first. */
  function SortDown(numbers: seq<nat>): (r: seq<nat>)
    ensures forall m :: m in r <==> m in numbers
    ensures |r| <= |numbers|
  {
    if numbers == [] then [] else InsertDown(SortDown(numbers[1..]), numbers[0])
  }

  lemma {:induction false} InsertDescends(s: seq<nat>, n: nat)
    requires Descending(s)
    ensures Descending(InsertDown(s, n))
    decreases |s|
  {
    if s == [] {
    } else if n > s[0] {
      assert ([n] + s)[1..] == s;
    } else if n < s[0] {
      InsertDescends(s[1..], n);
      var rest := InsertDown(s[1..], n);
      assert ([s[0]] + rest)[1..] == rest;
      assert rest[0] in rest;
      if rest[0] != n { assert rest[0] in s[1..]; Below(s, rest[0]); }
    }
  }

  lemma {:induction false} Below(s: seq<nat>, n: nat)
    requires Descending(s) && |s| > 0 && n in s[1..]
    ensures n < s[0]
    decreases |s|
  {
    if n != s[1] {
      assert n in s[1..][1..];
      Below(s[1..], n);
    }
  }

  lemma {:induction false} SortDescends(numbers: seq<nat>)
    ensures Descending(SortDown(numbers))
    decreases |numbers|
  {
    if numbers != [] {
      SortDescends(numbers[1..]);
      InsertDescends(SortDown(numbers[1..]), numbers[0]);
    }
  }

  // ------------------------------------------------------------------- ranges

  datatype Range = Range(smallest: nat, largest: nat)

  /** One step of `buildAckPacketRanges`. */
  function Extend(ranges: seq<Range>, n: nat): seq<Range> {
    if ranges != [] && n + 1 == ranges[|ranges| - 1].smallest
    then ranges[..|ranges| - 1] + [Range(n, ranges[|ranges| - 1].largest)]
    else ranges + [Range(n, n)]
  }

  function RangesOf(sorted: seq<nat>): seq<Range> {
    if sorted == [] then [] else Extend(RangesOf(sorted[..|sorted| - 1]), sorted[|sorted| - 1])
  }

  method BuildAckPacketRanges(numbers: seq<nat>) returns (ranges: seq<Range>)
    ensures ranges == RangesOf(SortDown(numbers))
  {
    var sorted := SortDown(numbers);
    ranges := [];
    assert sorted[..0] == [];
    for i := 0 to |sorted|
      invariant ranges == RangesOf(sorted[..i])
    {
      assert sorted[..i + 1][..i] == sorted[..i];
      if ranges != [] && sorted[i] + 1 == ranges[|ranges| - 1].smallest {
        ranges := ranges[..|ranges| - 1] + [Range(sorted[i], ranges[|ranges| - 1].largest)];
      } else {
        ranges := ranges + [Range(sorted[i], sorted[i])];
      }
    }
    assert sorted[..|sorted|] == sorted;
  }

  /** Ranges below `bound`, largest first, with at least one number missing
      before each: they are maximal and do not touch. */
  ghost predicate Apart(bound: nat, ranges: seq<Range>)
    decreases |ranges|
  {
    ranges == [] ||
    (&& ranges[0].smallest <= ranges[0].largest && ranges[0].largest + 2 <= bound
     && Apart(ranges[0].smallest, ranges[1..]))
  }

  ghost predicate Covered(ranges: seq<Range>, n: nat) {
    ranges != [] && (ranges[0].smallest <= n <= ranges[0].largest || Covered(ranges[1..], n))
  }

  lemma {:induction false} CoveredConcat(a: seq<Range>, b: seq<Range>, n: nat)
    ensures Covered(a + b, n) <==> Covered(a, n) || Covered(b, n)
    decreases |a|
  {
    if a == [] {
      assert a + b == b;
    } else {
      assert (a + b)[1..] == a[1..] + b;
      CoveredConcat(a[1..], b, n);
    }
  }

  lemma CoveredOne(r: Range, n: nat)
    ensures Covered([r], n) <==> r.smallest <= n <= r.largest
  {
    assert [r][1..] == [];
  }

  lemma ExtendCovers(ranges: seq<Range>, n: nat, m: nat)
    requires ranges != [] ==> ranges[|ranges| - 1].smallest <= ranges[|ranges| - 1].largest
    ensures Covered(Extend(ranges, n), m) <==> Covered(ranges, m) || m == n
  {
    hide Covered;
    CoveredConcat(ranges, [Range(n, n)], m);
    CoveredOne(Range(n, n), m);
    if ranges != [] {
      var init, last := ranges[..|ranges| - 1], ranges[|ranges| - 1];
      assert ranges == init + [last];
      CoveredConcat(init, [last], m);
      CoveredConcat(init, [Range(n, last.largest)], m);
      CoveredOne(last, m);
      CoveredOne(Range(n, last.largest), m);
    }
  }

  lemma {:induction false} ExtendApart(bound: nat, ranges: seq<Range>, n: nat)
    requires Apart(bound, ranges)
    requires if ranges == [] then n + 2 <= bound else n < ranges[|ranges| - 1].smallest
    ensures Apart(bound, Extend(ranges, n))
    ensures ranges != [] ==> ranges[|ranges| - 1].smallest <= ranges[|ranges| - 1].largest
    decreases |ranges|
  {
    var e := Extend(ranges, n);
    if ranges == [] {
      assert e == [Range(n, n)] && e[1..] == [];
    } else if |ranges| == 1 {
      assert ranges[1..] == [];
      if n + 1 == ranges[0].smallest {
        assert e == [Range(n, ranges[0].largest)] && e[1..] == [];
      } else {
        assert e[1..] == [Range(n, n)] && e[1..][1..] == [];
      }
    } else {
      ExtendApart(ranges[0].smallest, ranges[1..], n);
      assert e[1..] == Extend(ranges[1..], n);
    }
  }

  lemma {:induction false} RangesLast(sorted: seq<nat>)
    requires sorted != []
    ensures RangesOf(sorted) != [] && RangesOf(sorted)[|RangesOf(sorted)| - 1].smallest == sorted[|sorted| - 1]
    ensures |RangesOf(sorted)| <= |sorted|
    decreases |sorted|
  {
    if |sorted| > 1 { RangesLast(sorted[..|sorted| - 1]); }
  }

  lemma {:induction false} DescendingInit(s: seq<nat>)
    requires Descending(s) && |s| > 1
    ensures Descending(s[..|s| - 1]) && s[|s| - 1] < s[|s| - 2] && s[|s| - 1] < s[0]
    decreases |s|
  {
    if |s| > 2 {
      DescendingInit(s[1..]);
      assert s[..|s| - 1][1..] == s[1..][..|s| - 2];
    }
  }

  /** The ranges of the sorted numbers are maximal, apart, and cover just them. */
  lemma {:induction false} RangesOk(sorted: seq<nat>, m: nat)
    requires Descending(sorted) && sorted != []
    ensures Apart(sorted[0] + 2, RangesOf(sorted))
    ensures Covered(RangesOf(sorted), m) <==> m in sorted
    decreases |sorted|
  {
    var init, n := sorted[..|sorted| - 1], sorted[|sorted| - 1];
    assert sorted == init + [n];
    if init == [] {
      assert RangesOf(init) == [];
      ExtendApart(n + 2, [], n);
      ExtendCovers([], n, m);
    } else {
      DescendingInit(sorted);
      RangesOk(init, m);
      RangesLast(init);
      ExtendApart(sorted[0] + 2, RangesOf(init), n);
      ExtendCovers(RangesOf(init), n, m);
    }
  }

  // ------------------------------------------------------------ the ACK frame

  /** The ranges after the first, as gaps and lengths. */
  function PackRest(previous: nat, ranges: seq<Range>): (r: seq<AckRange>)
    requires Apart(previous, ranges)
    ensures |r| == |ranges|
    decreases |ranges|
  {
    if ranges == [] then []
    else [AckRange(previous - ranges[0].largest - 2, ranges[0].largest - ranges[0].smallest)]
         + PackRest(ranges[0].smallest, ranges[1..])
  }

  function Pack(ranges: seq<Range>, delay: nat): (f: Frame)
    requires ranges != [] && Apart(ranges[0].largest + 2, ranges)
  {
    var first := ranges[0];
    Ack(first.largest, delay, first.largest - first.smallest, PackRest(first.smallest, ranges[1..]))
  }

  /** The ranges an ACK frame denotes. */
  ghost function UnpackRest(previous: nat, ranges: seq<AckRange>): seq<Range>
    requires ValidRanges(previous, ranges)
    decreases |ranges|
  {
    if ranges == [] then []
    else
      var largest := previous - ranges[0].gap - 2;
      var smallest := largest - ranges[0].length;
      [Range(smallest, largest)] + UnpackRest(smallest, ranges[1..])
  }

  ghost function Unpack(f: Frame): seq<Range>
    requires f.Ack? && WellFormed(f)
  {
    [Range(f.largest - f.first, f.largest)] + UnpackRest(f.largest - f.first, f.ranges)
  }

  lemma {:induction false} UnpackPackRest(previous: nat, ranges: seq<Range>)
    requires Apart(previous, ranges)
    ensures ValidRanges(previous, PackRest(previous, ranges))
    ensures UnpackRest(previous, PackRest(previous, ranges)) == ranges
    decreases |ranges|
  {
    if ranges != [] {
      UnpackPackRest(ranges[0].smallest, ranges[1..]);
      var p := PackRest(previous, ranges);
      assert p[1..] == PackRest(ranges[0].smallest, ranges[1..]);
      assert [ranges[0]] + ranges[1..] == ranges;
    }
  }

  lemma UnpackPack(ranges: seq<Range>, delay: nat)
    requires ranges != [] && Apart(ranges[0].largest + 2, ranges)
    ensures WellFormed(Pack(ranges, delay)) && Unpack(Pack(ranges, delay)) == ranges
  {
    UnpackPackRest(ranges[0].smallest, ranges[1..]);
    assert [ranges[0]] + ranges[1..] == ranges;
  }

  lemma {:induction false} PackedSmall(previous: nat, ranges: seq<Range>)
    requires Apart(previous, ranges) && previous <= MAX_VARINT
    ensures EncodeRanges(PackRest(previous, ranges)).Ok? && |ranges| <= previous
    decreases |ranges|
  {
    hide EncodeVarInt;
    if ranges != [] {
      PackedSmall(ranges[0].smallest, ranges[1..]);
      var p := PackRest(previous, ranges);
      assert p[1..] == PackRest(ranges[0].smallest, ranges[1..]);
      assert EncodeVarInt(p[0].gap).Ok? && EncodeVarInt(p[0].length).Ok?;
    }
  }

  /** `encodeQuicAckFrame`: the frame that it encodes. */
  function AckFrame(numbers: seq<nat>, delay: nat): (r: Result<Frame>)
    ensures r.Ok? <==> numbers != [] && delay <= MAX_SAFE && forall n :: n in numbers ==> n <= MAX_PACKET_NUMBER
    ensures r.Ok? ==> r.value.Ack? && WellFormed(r.value)
  {
    var _ :- Check(numbers != [] && delay <= MAX_SAFE && forall n :: n in numbers ==> n <= MAX_PACKET_NUMBER);
    var sorted := SortDown(numbers);
    SortDescends(numbers);
    assert numbers[0] in sorted;
    RangesOk(sorted, sorted[0]);
    RangesHead(sorted);
    var ranges := RangesOf(sorted);
    UnpackPack(ranges, delay);
    Ok(Pack(ranges, delay))
  }

  lemma {:induction false} RangesHead(sorted: seq<nat>)
    requires Descending(sorted) && sorted != []
    ensures RangesOf(sorted) != [] && RangesOf(sorted)[0].largest == sorted[0]
    decreases |sorted|
  {
    if |sorted| == 1 {
      assert sorted[..0] == [];
    } else {
      DescendingInit(sorted);
      RangesHead(sorted[..|sorted| - 1]);
    }
  }

  function EncodeAckFrame(numbers: seq<nat>, delay: nat): Result<Bytes> {
    var frame :- AckFrame(numbers, delay);
    EncodeFrame(frame)
  }

  /** Encoding fails only on bad arguments: every field fits a varint. */
  lemma AckEncodes(numbers: seq<nat>, delay: nat)
    ensures EncodeAckFrame(numbers, delay).Ok? <==> AckFrame(numbers, delay).Ok?
  {
    hide EncodeVarInt, EncodeRanges, Apart, Covered, SortDown, RangesOf, WellFormed;
    if AckFrame(numbers, delay).Ok? {
      var sorted := SortDown(numbers);
      SortDescends(numbers);
      assert numbers[0] in sorted;
      RangesOk(sorted, sorted[0]);
      RangesHead(sorted);
      var ranges := RangesOf(sorted);
      assert sorted[0] in numbers;
      ApartTail(ranges);
      PackedSmall(ranges[0].smallest, ranges[1..]);
      var f := Pack(ranges, delay);
      assert EncodeVarInt(f.largest).Ok? && EncodeVarInt(f.delay).Ok?;
      assert EncodeVarInt(|f.ranges|).Ok? && EncodeVarInt(f.first).Ok?;
    }
  }

  lemma ApartTail(ranges: seq<Range>)
    requires ranges != [] && Apart(ranges[0].largest + 2, ranges)
    ensures Apart(ranges[0].smallest, ranges[1..]) && ranges[0].smallest <= ranges[0].largest
  {
  }

  /** An encoded ACK parses to a single frame whose ranges are maximal, do not
      touch, and denote exactly the numbers given. The length of a JavaScript
      array is always a safe integer. */
  lemma AckMeans(numbers: seq<nat>, delay: nat, e: Bytes, m: nat)
    requires EncodeAckFrame(numbers, delay) == Ok(e) && |numbers| <= MAX_SAFE
    ensures var f := AckFrame(numbers, delay);
            && f.Ok? && BareResult(ParseFrames(e, 0)) == Ok([f.value])
            && Apart(f.value.largest + 2, Unpack(f.value))
            && (Covered(Unpack(f.value), m) <==> m in numbers)
  {
    hide EncodeFrame, ParseFrames, BareResult, Apart, Covered, SortDown, RangesOf, WellFormed, Unpack;
    var f := AckFrame(numbers, delay).value;
    var sorted := SortDown(numbers);
    SortDescends(numbers);
    assert numbers[0] in sorted;
    RangesOk(sorted, m);
    RangesHead(sorted);
    RangesLast(sorted);
    UnpackPack(RangesOf(sorted), delay);
    var frames := [f];
    assert frames[1..] == [] && e + [] == e;
    assert EncodeFrames([]) == Ok([]);
    assert EncodeFrames(frames) == Ok(e);
    assert Merged(frames) == frames by { assert Merged([]) == []; }
    FramesRoundTrip(frames, e);
  }

  /** `encodeQuicAckFrame`'s loop over the ranges. */
  method EncodeQuicAckFrame(numbers: seq<nat>, delay: nat) returns (r: Result<Bytes>)
    ensures r == EncodeAckFrame(numbers, delay)
  {
    hide EncodeVarInt, EncodeRanges, Apart, SortDown, RangesOf, WellFormed, PackRest;
    if numbers == [] || delay > MAX_SAFE || exists n :: n in numbers && n > MAX_PACKET_NUMBER {
      return Err;
    }
    ghost var f := AckFrame(numbers, delay).value;
    var ranges := BuildAckPacketRanges(numbers);
    SortDescends(numbers);
    assert numbers[0] in SortDown(numbers);
    RangesOk(SortDown(numbers), SortDown(numbers)[0]);
    RangesHead(SortDown(numbers));
    ApartTail(ranges);
    var first := ranges[0];
    assert SortDown(numbers)[0] in numbers;
    var a := EncodeVarInt(first.largest).value;
    var b := EncodeVarInt(delay).value;
    var c :- EncodeVarInt(|ranges| - 1);
    var d := EncodeVarInt(first.largest - first.smallest).value;
    var packed := EncodePackedRanges(first.smallest, ranges[1..]);
    var rest :- packed;
    r := Ok([0x02] + (a + (b + (c + (d + rest)))));
  }

  method EncodePackedRanges(previous: nat, ranges: seq<Range>) returns (r: Result<Bytes>)
    requires Apart(previous, ranges)
    ensures r == EncodeRanges(PackRest(previous, ranges))
  {
    hide EncodeVarInt;
    var last: nat := previous;
    var out: Bytes := [];
    assert ranges[0..] == ranges;
    ghost var whole := EncodeRanges(PackRest(previous, ranges));
    if whole.Ok? { assert out + whole.value == whole.value; }
    for i := 0 to |ranges|
      invariant Apart(last, ranges[i..])
      invariant Completes(out, EncodeRanges(PackRest(last, ranges[i..])), whole)
    {
      ghost var now := PackRest(last, ranges[i..]);
      assert ranges[i..][0] == ranges[i] && ranges[i..][1..] == ranges[i + 1..];
      assert now[1..] == PackRest(ranges[i].smallest, ranges[i + 1..]);
      var gap :- EncodeVarInt(last - ranges[i].largest - 2);
      var length :- EncodeVarInt(ranges[i].largest - ranges[i].smallest);
      CompletesNext(out, gap, length, EncodeRanges(now), EncodeRanges(now[1..]), whole);
      out := out + gap + length;
      last := ranges[i].smallest;
    }
    assert out + [] == out;
    r := Ok(out);
  }

  /** What is written and what is still to be written make up the whole. */
  ghost predicate Completes(out: Bytes, rest: Result<Bytes>, whole: Result<Bytes>) {
    match rest case Err => whole.Err? case Ok(e) => whole == Ok(out + e)
  }

  lemma CompletesNext(out: Bytes, a: Bytes, b: Bytes, now: Result<Bytes>, rest: Result<Bytes>, whole: Result<Bytes>)
    requires Completes(out, now, whole)
    requires match rest case Err => now.Err? case Ok(e) => now == Ok(a + (b + e))
    ensures Completes(out + a + b, rest, whole)
  {
    if rest.Ok? { assert out + (a + (b + rest.value)) == out + a + b + rest.value; }
  }

  // ------------------------------------------------------------------ tracker

  /** `isQuicAckElicitingFrame` */
  predicate Eliciting(f: Frame) {
    !f.Padding? && !f.Ack? && !f.AckEcn? && !f.TransportClose? && !f.ApplicationClose?
  }

  predicate AnyEliciting(frames: seq<Frame>) { exists f :: f in frames && Eliciting(f) }

  /** What one packet does: the numbers recorded after it, and the ACK to send.
      When encoding the ACK throws, the number stays recorded. */
  datatype Received = Received(numbers: seq<nat>, ack: Result<Option<Bytes>>)

  function Recorded(numbers: seq<nat>, n: nat): seq<nat> {
    if n in numbers then numbers else numbers + [n]
  }

  function Receive(numbers: seq<nat>, n: nat, frames: seq<Frame>, delay: nat): Received {
    if !AnyEliciting(frames) then Received(numbers, Ok(None))
    else if n > MAX_PACKET_NUMBER then Received(numbers, Err)
    else
      var ack := EncodeAckFrame(SortDown(Recorded(numbers, n)), delay);
      Received(Recorded(numbers, n), if ack.Err? then Err else Ok(Some(ack.value)))
  }

  class AckReceiveTracker {
    var numbers: seq<nat>

    constructor ()
      ensures numbers == []
    {
      numbers := [];
    }

    method Record(n: nat) returns (r: Result<()>)
      modifies this
      ensures r.Ok? <==> n <= MAX_PACKET_NUMBER
      ensures numbers == if r.Ok? then Recorded(old(numbers), n) else old(numbers)
    {
      if n > MAX_PACKET_NUMBER {
        return Err;
      }
      if n !in numbers {
        numbers := numbers + [n];
      }
      r := Ok(());
    }

    /** The numbers recorded, largest first. */
    function Snapshot(): (sorted: seq<nat>)
      reads this
      ensures forall n :: n in sorted <==> n in numbers
    {
      SortDown(numbers)
    }

    method AckFrame(delay: nat) returns (r: Result<Bytes>)
      ensures r == EncodeAckFrame(SortDown(numbers), delay)
    {
      r := EncodeQuicAckFrame(Snapshot(), delay);
    }
  }

  /** `receiveQuicOneRttFrames` */
  method ReceiveOneRttFrames(tracker: AckReceiveTracker, n: nat, frames: seq<Frame>, delay: nat)
      returns (ack: Result<Option<Bytes>>)
    modifies tracker
    ensures Received(tracker.numbers, ack) == Receive(old(tracker.numbers), n, frames, delay)
  {
    hide EncodeAckFrame, SortDown;
    if !AnyEliciting(frames) {
      return Ok(None);
    }
    var recorded := tracker.Record(n);
    if recorded.Err? {
      return Err;
    }
    var frame := tracker.AckFrame(delay);
    if frame.Err? {
      return Err;
    }
    ack := Ok(Some(frame.value));
  }

  // --------------------------------------------------------------------- runs

  datatype Packet = Packet(n: nat, frames: seq<Frame>, delay: nat)

  /** The numbers recorded after a run of packets. */
  ghost function RunNumbers(packets: seq<Packet>): seq<nat> {
    if packets == [] then []
    else
      var last := packets[|packets| - 1];
      Receive(RunNumbers(packets[..|packets| - 1]), last.n, last.frames, last.delay).numbers
  }

  /** `m` is the number of an ack-eliciting packet of the run. */
  ghost predicate Expected(packets: seq<Packet>, m: nat) {
    exists i :: 0 <= i < |packets| && Counts(packets[i], m)
  }

  ghost predicate Counts(p: Packet, m: nat) {
    p.n == m && m <= MAX_PACKET_NUMBER && AnyEliciting(p.frames)
  }

  lemma {:induction false} RunRecords(packets: seq<Packet>, m: nat)
    ensures m in RunNumbers(packets) <==> Expected(packets, m)
    ensures |RunNumbers(packets)| <= |packets|
    decreases |packets|
  {
    hide EncodeAckFrame, AnyEliciting, SortDown;
    if packets != [] {
      var init, last := packets[..|packets| - 1], packets[|packets| - 1];
      RunRecords(init, m);
      assert Expected(packets, m) <==> Expected(init, m) || Counts(last, m) by {
        if Expected(init, m) {
          var i :| 0 <= i < |init| && Counts(init[i], m);
          assert packets[i] == init[i];
        }
        if Expected(packets, m) {
          var i :| 0 <= i < |packets| && Counts(packets[i], m);
          if i < |init| { assert init[i] == packets[i]; }
        }
      }
    }
  }

  /** After any run of packets, the ACK answering the last one parses to a
      single frame whose ranges are maximal, do not touch, and denote exactly
      the ack-eliciting packet numbers received so far. */
  lemma RunAcks(packets: seq<Packet>, ack: Bytes, m: nat)
    requires packets != [] && |packets| <= MAX_SAFE
    requires var last := packets[|packets| - 1];
             Receive(RunNumbers(packets[..|packets| - 1]), last.n, last.frames, last.delay).ack == Ok(Some(ack))
    ensures var last := packets[|packets| - 1];
            var f := AckFrame(SortDown(RunNumbers(packets)), last.delay);
            && f.Ok? && BareResult(ParseFrames(ack, 0)) == Ok([f.value])
            && Apart(f.value.largest + 2, Unpack(f.value))
            && (Covered(Unpack(f.value), m) <==> Expected(packets, m))
  {
    hide ParseFrames, BareResult, Apart, Covered, Unpack, AckFrame, SortDown, AnyEliciting, Expected;
    var last := packets[|packets| - 1];
    RunRecords(packets, m);
    AckMeans(SortDown(RunNumbers(packets)), last.delay, ack, m);
  }
}
