/** Bytes, fixed-width integers and the error type shared by every codec. */
module Bytes {

  type byte = x: int | 0 <= x < 256
  type Bytes = seq<byte>

  /** `Err` stands for a thrown exception; which exception is not modelled. */
  datatype Result<+T> = Ok(value: T) | Err {
    predicate IsFailure() { Err? }
    function PropagateFailure<U>(): Result<U>
      requires Err?
    {
      Err
    }
    function Extract(): T
      requires Ok?
    {
      value
    }
  }

  datatype Option<+T> = None | Some(value: T)

  /** `Check(c)` throws unless `c` holds. */
  function Check(condition: bool): Result<()> {
    if condition then Ok(()) else Err
  }

  function Pow2(n: nat): (r: nat)
    ensures r > 0
  {
    if n == 0 then 1 else 2 * Pow2(n - 1)
  }

  /** Big-endian values of two and of four bytes. */
  function Be16(hi: int, lo: int): int { 256 * hi + lo }

  function Be32(b0: int, b1: int, b2: int, b3: int): int {
    0x1_0000 * Be16(b0, b1) + Be16(b2, b3)
  }

  function U16(value: nat): (r: Bytes)
    ensures |r| == 2 && (value < 0x1_0000 ==> Be16(r[0], r[1]) == value)
  {
    [value / 256 % 256, value % 256]
  }

  function U32(value: nat): (r: Bytes)
    requires value < 0x1_0000_0000
    ensures |r| == 4 && Be32(r[0], r[1], r[2], r[3]) == value
  {
    U16(value / 0x1_0000) + U16(value % 0x1_0000)
  }

  /** The concatenation of `parts`. */
  function Concat<T>(parts: seq<seq<T>>): seq<T> {
    if parts == [] then [] else parts[0] + Concat(parts[1..])
  }

  lemma {:induction false} ConcatAppend<T>(parts: seq<seq<T>>, last: seq<T>)
    ensures Concat(parts + [last]) == Concat(parts) + last
  {
    if parts == [] {
      assert [last][1..] == [];
    } else {
      ConcatAppend(parts[1..], last);
      assert (parts + [last])[1..] == parts[1..] + [last];
    }
  }

  /** `concatBytes`: one buffer of the total length, filled part by part. */
  method ConcatBytes(parts: seq<Bytes>) returns (r: Bytes)
    ensures r == Concat(parts)
  {
    var length: nat := 0;
    assert parts[..0] == [];
    for i := 0 to |parts|
      invariant length == |Concat(parts[..i])|
    {
      assert parts[..i + 1] == parts[..i] + [parts[i]];
      ConcatAppend(parts[..i], parts[i]);
      length := length + |parts[i]|;
    }
    assert parts[..|parts|] == parts;
    var out := new byte[length](_ => 0);
    var offset: nat := 0;
    for i := 0 to |parts|
      invariant offset == |Concat(parts[..i])| <= length
      invariant out[..offset] == Concat(parts[..i])
    {
      assert parts[..i + 1] == parts[..i] + [parts[i]];
      ConcatAppend(parts[..i], parts[i]);
      ConcatPrefix(parts, i + 1);
      ghost var done := out[..offset];
      forall j | 0 <= j < |parts[i]| {
        out[offset + j] := parts[i][j];
      }
      assert out[..offset + |parts[i]|] == done + parts[i];
      offset := offset + |parts[i]|;
    }
    r := out[..];
  }

  lemma {:induction false} ConcatPrefix<T>(parts: seq<seq<T>>, i: nat)
    requires i <= |parts|
    ensures |Concat(parts[..i])| <= |Concat(parts)|
    decreases |parts| - i
  {
    if i == |parts| {
      assert parts[..i] == parts;
    } else {
      assert parts[..i + 1] == parts[..i] + [parts[i]];
      ConcatAppend(parts[..i], parts[i]);
      ConcatPrefix(parts, i + 1);
    }
  }

  /** `e` stands in `buf` at `off`. */
  ghost predicate Has(buf: Bytes, off: nat, e: Bytes) {
    off + |e| <= |buf| && buf[off..off + |e|] == e
  }

  lemma HasSplit(buf: Bytes, off: nat, a: Bytes, b: Bytes)
    requires Has(buf, off, a + b)
    ensures Has(buf, off, a)
    ensures Has(buf, off + |a|, b)
  {
    var s := buf[off..off + |a + b|];
    assert buf[off..off + |a|] == s[..|a|];
    assert buf[off + |a|..off + |a| + |b|] == s[|a|..];
  }

  lemma HasIndex(buf: Bytes, off: nat, e: Bytes, i: nat)
    requires Has(buf, off, e) && i < |e|
    ensures off + i < |buf| && buf[off + i] == e[i]
  {
    assert buf[off..off + |e|][i] == e[i];
  }

  // --------------------------------------------------------------- reading

  /** A value read and the offset after it. */
  datatype Read<+T> = Read(value: T, next: nat)

  function ReadU8(buf: Bytes, off: nat): Result<Read<nat>> {
    var _ :- Check(off < |buf|);
    Ok(Read(buf[off], off + 1))
  }

  function Take(buf: Bytes, off: nat, length: nat): Result<Read<Bytes>> {
    var _ :- Check(off + length <= |buf|);
    Ok(Read(buf[off..off + length], off + length))
  }

  /** A method's answer and new offset are those of `spec`. */
  ghost predicate Reads<T>(r: Result<T>, offset: nat, spec: Result<Read<T>>) {
    match spec
    case Err => r.Err?
    case Ok(x) => r == Ok(x.value) && offset == x.next
  }

  /** Reading on from here completes what was started: `done` comes first. */
  ghost predicate Resumes<T>(done: seq<T>, rest: Result<Read<seq<T>>>, whole: Result<Read<seq<T>>>) {
    match rest
    case Err => whole.Err?
    case Ok(x) => whole == Ok(Read(done + x.value, x.next))
  }

  lemma ResumesStart<T>(whole: Result<Read<seq<T>>>)
    ensures Resumes([], whole, whole)
  {
    assert whole.Ok? ==> [] + whole.value.value == whole.value.value;
  }

  lemma ResumesStep<T>(done: seq<T>, item: T, now: Result<Read<seq<T>>>,
                       rest: Result<Read<seq<T>>>, whole: Result<Read<seq<T>>>)
    requires Resumes(done, now, whole)
    requires match rest case Err => now.Err? case Ok(x) => now == Ok(Read([item] + x.value, x.next))
    ensures Resumes(done + [item], rest, whole)
  {
    if rest.Ok? {
      assert done + [item] + rest.value.value == done + ([item] + rest.value.value);
    }
  }
}
