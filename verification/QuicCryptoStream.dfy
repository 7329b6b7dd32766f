/** Reassembly of CRYPTO frames into one stream of handshake bytes. */
module QuicCryptoStream {
  import opened Bytes

  datatype Chunk = Chunk(offset: nat, data: Bytes)

  function End(f: Chunk): nat { f.offset + |f.data| }

  predicate At(f: Chunk, p: int) { f.offset <= p < End(f) }

  function ByteAt(f: Chunk, p: int): byte
    requires At(f, p)
  {
    f.data[p - f.offset]
  }

  // ------------------------------------------------------------ specification

  /** The largest end of any frame. */
  function MaxEnd(frames: seq<Chunk>): (r: nat)
    ensures forall f :: f in frames ==> End(f) <= r
  {
    if frames == [] then 0
    else
      var rest := MaxEnd(frames[1..]);
      if End(frames[0]) > rest then End(frames[0]) else rest
  }

  ghost predicate CoveredBy(frames: seq<Chunk>, p: int) {
    exists f :: f in frames && At(f, p)
  }

  /** Frames agree wherever they overlap. */
  ghost predicate Consistent(frames: seq<Chunk>) {
    forall f, g, p :: f in frames && g in frames && At(f, p) && At(g, p) ==> ByteAt(f, p) == ByteAt(g, p)
  }

  ghost predicate Gapless(frames: seq<Chunk>) {
    forall p :: 0 <= p < MaxEnd(frames) ==> CoveredBy(frames, p)
  }

  ghost predicate Agrees(out: Bytes, f: Chunk) {
    End(f) <= |out| && forall p :: At(f, p) ==> out[p] == ByteAt(f, p)
  }

  /** `r` is what reassembling the frames has to give. */
  ghost predicate Assembled(frames: seq<Chunk>, r: Result<Bytes>) {
    match r
    case Err => !Consistent(frames) || !Gapless(frames)
    case Ok(out) => Gapless(frames) && |out| == MaxEnd(frames) && forall f :: f in frames ==> Agrees(out, f)
  }

  /** The result succeeds exactly when the frames agree and leave no gap. */
  lemma AssembledIff(frames: seq<Chunk>, r: Result<Bytes>)
    requires Assembled(frames, r)
    ensures r.Ok? <==> Consistent(frames) && Gapless(frames)
  {
    if r.Ok? {
      forall f, g, p | f in frames && g in frames && At(f, p) && At(g, p) ensures ByteAt(f, p) == ByteAt(g, p) {
        assert Agrees(r.value, f) && Agrees(r.value, g);
      }
    }
  }

  /** The order and repetition of frames does not matter. */
  lemma OrderIrrelevant(frames: seq<Chunk>, others: seq<Chunk>, r: Result<Bytes>, s: Result<Bytes>)
    requires forall f :: f in frames <==> f in others
    requires Assembled(frames, r) && Assembled(others, s)
    ensures r == s
  {
    SameEnd(frames, others);
    SameCover(frames, others);
    SameCover(others, frames);
    assert Consistent(frames) <==> Consistent(others);
    assert Gapless(frames) <==> Gapless(others) by {
      assert forall p :: CoveredBy(frames, p) <==> CoveredBy(others, p);
    }
    AssembledIff(frames, r);
    AssembledIff(others, s);
    if r.Ok? && s.Ok? {
      forall p | 0 <= p < |r.value| ensures r.value[p] == s.value[p] {
        assert CoveredBy(frames, p);
        var f :| f in frames && At(f, p);
        assert Agrees(r.value, f) && Agrees(s.value, f);
      }
      assert r.value == s.value;
    }
  }

  lemma SameCover(frames: seq<Chunk>, others: seq<Chunk>)
    requires forall f :: f in frames ==> f in others
    ensures forall p :: CoveredBy(frames, p) ==> CoveredBy(others, p)
  {
    forall p | CoveredBy(frames, p) ensures CoveredBy(others, p) {
      var f :| f in frames && At(f, p);
      assert f in others;
    }
  }

  lemma {:induction false} EndWitness(frames: seq<Chunk>)
    ensures MaxEnd(frames) == 0 || exists f :: f in frames && End(f) == MaxEnd(frames)
    decreases |frames|
  {
    if frames != [] {
      EndWitness(frames[1..]);
      assert frames[0] in frames;
      if MaxEnd(frames) != End(frames[0]) && MaxEnd(frames) != 0 {
        var f :| f in frames[1..] && End(f) == MaxEnd(frames[1..]);
        assert f in frames;
      }
    }
  }

  lemma SameEnd(frames: seq<Chunk>, others: seq<Chunk>)
    requires forall f :: f in frames <==> f in others
    ensures MaxEnd(frames) == MaxEnd(others)
  {
    EndWitness(frames);
    EndWitness(others);
  }

  // ------------------------------------------------------------------ sorting

  ghost predicate Sorted(s: seq<Chunk>) {
    forall i, j :: 0 <= i < j < |s| ==> s[i].offset <= s[j].offset
  }

  function Insert(s: seq<Chunk>, f: Chunk): (r: seq<Chunk>)
    ensures forall g :: g in r <==> g == f || g in s
  {
    if s == [] || f.offset <= s[0].offset then [f] + s else [s[0]] + Insert(s[1..], f)
  }

  /** The stable sort by offset. */
  function SortByOffset(frames: seq<Chunk>): (r: seq<Chunk>)
    ensures forall g :: g in r <==> g in frames
  {
    if frames == [] then [] else Insert(SortByOffset(frames[1..]), frames[0])
  }

  lemma {:induction false} InsertSorted(s: seq<Chunk>, f: Chunk)
    requires Sorted(s)
    ensures Sorted(Insert(s, f))
    decreases |s|
  {
    if s != [] && f.offset > s[0].offset {
      InsertSorted(s[1..], f);
      var rest := Insert(s[1..], f);
      forall j | 0 <= j < |rest| ensures s[0].offset <= rest[j].offset {
        assert rest[j] in rest;
      }
    }
  }

  lemma {:induction false} SortSorted(frames: seq<Chunk>)
    ensures Sorted(SortByOffset(frames))
    decreases |frames|
  {
    if frames != [] {
      SortSorted(frames[1..]);
      InsertSorted(SortByOffset(frames[1..]), frames[0]);
    }
  }

  // ---------------------------------------------------------------- algorithm

  /** The inner loop: writes one frame unless it contradicts a written byte. */
  method WriteFrame(f: Chunk, out: array<byte>, written: array<byte>) returns (ok: bool)
    requires out != written && out.Length == written.Length && End(f) <= out.Length
    modifies out, written
    ensures ok <==> forall p :: At(f, p) && old(written[p]) == 1 ==> old(out[p]) == ByteAt(f, p)
    ensures ok ==> forall p :: 0 <= p < out.Length ==>
                     && out[p] == (if At(f, p) then ByteAt(f, p) else old(out[p]))
                     && written[p] == (if At(f, p) then 1 else old(written[p]))
  {
    for index := 0 to |f.data|
      invariant forall p :: f.offset <= p < f.offset + index && old(written[p]) == 1 ==> old(out[p]) == f.data[p - f.offset]
      invariant forall p :: 0 <= p < out.Length ==>
                  if f.offset <= p < f.offset + index then out[p] == f.data[p - f.offset] && written[p] == 1
                  else out[p] == old(out[p]) && written[p] == old(written[p])
    {
      var outputIndex := f.offset + index;
      var byte_ := f.data[index];
      if written[outputIndex] == 1 && out[outputIndex] != byte_ {
        assert At(f, outputIndex) && ByteAt(f, outputIndex) == byte_;
        return false;
      }
      out[outputIndex] := byte_;
      written[outputIndex] := 1;
    }
    ok := true;
  }

  /** The bytes written so far are those of `done`, and agree with all of it. */
  ghost predicate Holds(done: seq<Chunk>, out: Bytes, written: Bytes) {
    && |out| == |written|
    && (forall p :: 0 <= p < |written| ==> (written[p] == 1 <==> CoveredBy(done, p)))
    && (forall f :: f in done ==> Agrees(out, f))
  }

  lemma HoldsNext(done: seq<Chunk>, f: Chunk, out: Bytes, written: Bytes, out': Bytes, written': Bytes)
    requires Holds(done, out, written) && End(f) <= |out| == |out'| == |written'|
    requires forall p :: At(f, p) && written[p] == 1 ==> out[p] == ByteAt(f, p)
    requires forall p :: 0 <= p < |out| ==>
               && out'[p] == (if At(f, p) then ByteAt(f, p) else out[p])
               && written'[p] == (if At(f, p) then 1 else written[p])
    ensures Holds(done + [f], out', written')
  {
    forall p | 0 <= p < |written| ensures written'[p] == 1 <==> CoveredBy(done + [f], p) {
      if At(f, p) { assert f in done + [f]; }
      if CoveredBy(done, p) {
        var g :| g in done && At(g, p);
        assert g in done + [f];
      }
    }
    forall g | g in done + [f] ensures Agrees(out', g) {
      if g in done {
        assert Agrees(out, g);
        forall p | At(g, p) ensures out'[p] == ByteAt(g, p) {
          assert CoveredBy(done, p);
        }
      }
    }
  }

  lemma Conflict(frames: seq<Chunk>, done: seq<Chunk>, f: Chunk, out: Bytes, written: Bytes, p: nat)
    requires Holds(done, out, written) && f in frames && forall g :: g in done ==> g in frames
    requires At(f, p) && End(f) <= |out| && written[p] == 1 && out[p] != ByteAt(f, p)
    ensures !Consistent(frames)
  {
    assert CoveredBy(done, p);
    var g :| g in done && At(g, p);
    assert Agrees(out, g);
  }

  /** A frame past the contiguous part of a sorted list leaves a hole for good. */
  lemma Hole(frames: seq<Chunk>, sorted: seq<Chunk>, k: nat, p: nat)
    requires Sorted(sorted) && k < |sorted| && forall g :: g in frames <==> g in sorted
    requires p < sorted[k].offset && !CoveredBy(sorted[..k + 1], p)
    ensures !Gapless(frames)
  {
    assert sorted[k] in frames;
    assert p < MaxEnd(frames);
    forall g | g in frames ensures !At(g, p) {
      var i :| 0 <= i < |sorted| && sorted[i] == g;
      if i <= k { assert sorted[..k + 1][i] == g; }
    }
    assert !CoveredBy(frames, p);
  }

  /** `assembleQuicCryptoStream` */
  method AssembleCryptoStream(frames: seq<Chunk>) returns (r: Result<Bytes>)
    ensures Assembled(frames, r)
  {
    var sorted := SortByOffset(frames);
    SortSorted(frames);
    var length: nat := 0;
    assert frames[0..] == frames;
    for i := 0 to |frames|
      invariant MaxEnd(frames) == if length > MaxEnd(frames[i..]) then length else MaxEnd(frames[i..])
    {
      assert frames[i..][1..] == frames[i + 1..];
      if End(frames[i]) > length { length := End(frames[i]); }
    }
    r := Fill(frames, sorted, length);
  }

  method Fill(ghost frames: seq<Chunk>, sorted: seq<Chunk>, length: nat) returns (r: Result<Bytes>)
    requires Sorted(sorted) && (forall g :: g in frames <==> g in sorted) && length == MaxEnd(frames)
    ensures Assembled(frames, r)
  {
    var out := new byte[length](_ => 0);
    var written := new byte[length](_ => 0);
    var contiguousLength: nat := 0;
    assert sorted[..0] == [];
    for k := 0 to |sorted|
      invariant Holds(sorted[..k], out[..], written[..])
      invariant 0 <= contiguousLength <= length
      invariant forall p :: 0 <= p < contiguousLength ==> written[p] == 1
      invariant k > 0 ==> contiguousLength == length || written[contiguousLength] != 1
    {
      ghost var before, marks := out[..], written[..];
      assert sorted[k] in frames;
      var ok := WriteFrame(sorted[k], out, written);
      if !ok {
        ghost var p :| At(sorted[k], p) && marks[p] == 1 && before[p] != ByteAt(sorted[k], p);
        Conflict(frames, sorted[..k], sorted[k], before, marks, p);
        return Err;
      }
      HoldsNext(sorted[..k], sorted[k], before, marks, out[..], written[..]);
      assert sorted[..k] + [sorted[k]] == sorted[..k + 1];
      contiguousLength := Advance(written, contiguousLength);
      if sorted[k].offset > contiguousLength {
        Hole(frames, sorted, k, contiguousLength);
        return Err;
      }
    }
    assert sorted[..|sorted|] == sorted;
    EmptyEnd(frames, sorted);
    if contiguousLength != length {
      assert sorted != [];
      NotCovered(frames, sorted, out[..], written[..], contiguousLength);
      return Err;
    }
    Whole(frames, sorted, out[..], written[..]);
    r := Ok(out[..]);
  }

  method Advance(written: array<byte>, start: nat) returns (end: nat)
    requires start <= written.Length && forall p :: 0 <= p < start ==> written[p] == 1
    ensures start <= end <= written.Length && (forall p :: 0 <= p < end ==> written[p] == 1)
    ensures end == written.Length || written[end] != 1
  {
    end := start;
    while end < written.Length && written[end] == 1
      invariant start <= end <= written.Length && forall p :: 0 <= p < end ==> written[p] == 1
    {
      end := end + 1;
    }
  }

  lemma EmptyEnd(frames: seq<Chunk>, sorted: seq<Chunk>)
    requires forall g :: g in frames <==> g in sorted
    ensures sorted == [] ==> MaxEnd(frames) == 0
  {
    if frames != [] { assert frames[0] in sorted; }
  }

  lemma NotCovered(frames: seq<Chunk>, sorted: seq<Chunk>, out: Bytes, written: Bytes, p: nat)
    requires (forall g :: g in frames <==> g in sorted) && Holds(sorted, out, written)
    requires p < |written| == MaxEnd(frames) && written[p] != 1
    ensures !Gapless(frames)
  {
    SameCover(frames, sorted);
    assert !CoveredBy(sorted, p);
  }

  lemma Whole(frames: seq<Chunk>, sorted: seq<Chunk>, out: Bytes, written: Bytes)
    requires (forall g :: g in frames <==> g in sorted) && Holds(sorted, out, written)
    requires |out| == MaxEnd(frames) && forall p :: 0 <= p < |written| ==> written[p] == 1
    ensures Assembled(frames, Ok(out))
  {
    forall p | 0 <= p < MaxEnd(frames) ensures CoveredBy(frames, p) {
      assert CoveredBy(sorted, p);
    }
  }
}
