/** The lexicographic order of byte strings, a prefix coming first. */
module ByteOrder {
  import opened Bytes

  /** `compareBytes`: negative, zero or positive. */
  function Compare(left: Bytes, right: Bytes): int {
    if left == [] || right == [] then |left| - |right|
    else if left[0] != right[0] then left[0] as int - right[0] as int
    else Compare(left[1..], right[1..])
  }

  method CompareBytes(left: Bytes, right: Bytes) returns (r: int)
    ensures r == Compare(left, right)
  {
    var length := if |left| < |right| then |left| else |right|;
    assert left[0..] == left && right[0..] == right;
    for i := 0 to length
      invariant Compare(left, right) == Compare(left[i..], right[i..])
    {
      var diff: int := left[i] as int - right[i] as int;
      if diff != 0 {
        return diff;
      }
      assert left[i..][1..] == left[i + 1..] && right[i..][1..] == right[i + 1..];
    }
    r := |left| - |right|;
  }

  lemma {:induction false} CompareSame(a: Bytes, b: Bytes)
    ensures Compare(a, b) == 0 <==> a == b
    decreases |a|
  {
    if a != [] && b != [] {
      CompareSame(a[1..], b[1..]);
      assert a == [a[0]] + a[1..] && b == [b[0]] + b[1..];
    }
  }

  lemma {:induction false} CompareFlips(a: Bytes, b: Bytes)
    ensures Compare(a, b) == -Compare(b, a)
    decreases |a|
  {
    if a != [] && b != [] { CompareFlips(a[1..], b[1..]); }
  }

  lemma {:induction false} CompareChains(a: Bytes, b: Bytes, c: Bytes)
    requires Compare(a, b) >= 0 && Compare(b, c) >= 0
    ensures Compare(a, c) >= 0 && (Compare(a, b) > 0 || Compare(b, c) > 0 ==> Compare(a, c) > 0)
    decreases |a|
  {
    if a != [] && b != [] && c != [] && a[0] == b[0] == c[0] { CompareChains(a[1..], b[1..], c[1..]); }
  }
}
