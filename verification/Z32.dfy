/** z-base-32: five bits a character, with a 32-bit accumulator that is never masked. */
module Z32 {
  import opened Bytes

  function Symbol(i: nat): char
    requires i < 32
  {
    if i == 0 then 'y'
    else if i == 1 then 'b'
    else if i == 2 then 'n'
    else if i == 3 then 'd'
    else if i == 4 then 'r'
    else if i == 5 then 'f'
    else if i == 6 then 'g'
    else if i == 7 then '8'
    else if i == 8 then 'e'
    else if i == 9 then 'j'
    else if i == 10 then 'k'
    else if i == 11 then 'm'
    else if i == 12 then 'c'
    else if i == 13 then 'p'
    else if i == 14 then 'q'
    else if i == 15 then 'x'
    else if i == 16 then 'o'
    else if i == 17 then 't'
    else if i == 18 then '1'
    else if i == 19 then 'u'
    else if i == 20 then 'w'
    else if i == 21 then 'i'
    else if i == 22 then 's'
    else if i == 23 then 'z'
    else if i == 24 then 'a'
    else if i == 25 then '3'
    else if i == 26 then '4'
    else if i == 27 then '5'
    else if i == 28 then 'h'
    else if i == 29 then '7'
    else if i == 30 then '6'
    else '9'
  }

  /** The decoding table. */
  function ValueOf(c: char): (r: Option<nat>)
    ensures r.Some? ==> r.value < 32
  {
    if c == 'y' then Some(0)
    else if c == 'b' then Some(1)
    else if c == 'n' then Some(2)
    else if c == 'd' then Some(3)
    else if c == 'r' then Some(4)
    else if c == 'f' then Some(5)
    else if c == 'g' then Some(6)
    else if c == '8' then Some(7)
    else if c == 'e' then Some(8)
    else if c == 'j' then Some(9)
    else if c == 'k' then Some(10)
    else if c == 'm' then Some(11)
    else if c == 'c' then Some(12)
    else if c == 'p' then Some(13)
    else if c == 'q' then Some(14)
    else if c == 'x' then Some(15)
    else if c == 'o' then Some(16)
    else if c == 't' then Some(17)
    else if c == '1' then Some(18)
    else if c == 'u' then Some(19)
    else if c == 'w' then Some(20)
    else if c == 'i' then Some(21)
    else if c == 's' then Some(22)
    else if c == 'z' then Some(23)
    else if c == 'a' then Some(24)
    else if c == '3' then Some(25)
    else if c == '4' then Some(26)
    else if c == '5' then Some(27)
    else if c == 'h' then Some(28)
    else if c == '7' then Some(29)
    else if c == '6' then Some(30)
    else if c == '9' then Some(31)
    else None
  }

  lemma ValueOfSymbol(i: nat)
    requires i < 32
    ensures ValueOf(Symbol(i)) == Some(i)
  {
  }

  // ---------------------------------------------------------------- division

  function Quot(x: nat, d: nat): nat
    requires d > 0
  {
    x / d
  }

  function Rem(x: nat, d: nat): (r: nat)
    requires d > 0
    ensures r < d
  {
    x % d
  }

  lemma QuotRem(x: nat, d: nat)
    requires d > 0
    ensures x == Quot(x, d) * d + Rem(x, d)
  {
  }

  /** Quotient and remainder are the only such pair. */
  lemma Unique(x: nat, d: nat, q: nat, r: nat)
    requires x == q * d + r && r < d
    ensures Quot(x, d) == q && Rem(x, d) == r
  {
    hide Quot, Rem;
    QuotRem(x, d);
    Apart(Quot(x, d), q, d);
    Apart(q, Quot(x, d), d);
  }

  lemma Apart(q: nat, p: nat, d: nat)
    ensures q < p ==> q * d + d <= p * d
  {
    if q < p {
      assert (q + 1) * d <= p * d;
      assert (q + 1) * d == q * d + d;
    }
  }

  /** Dividing twice is dividing by the product. */
  lemma QuotQuot(x: nat, a: nat, b: nat)
    requires a > 0 && b > 0
    ensures a * b > 0 && Quot(Quot(x, a), b) == Quot(x, a * b)
  {
    hide Quot, Rem;
    QuotRem(x, a);
    var y := Quot(x, a);
    QuotRem(y, b);
    var q := Quot(y, b);
    assert q * b * a == q * (a * b);
    assert y * a == q * (a * b) + Rem(y, b) * a by {
      assert (q * b + Rem(y, b)) * a == q * b * a + Rem(y, b) * a;
    }
    Apart(Rem(y, b), b, a);
    assert b * a == a * b;
    Unique(x, a * b, q, Rem(y, b) * a + Rem(x, a));
  }

  /** Appending a low digit and dividing past it leaves the quotient. */
  lemma QuotAppend(x: nat, base: nat, digit: nat, d: nat)
    requires base > 0 && d > 0 && digit < base
    ensures d * base > 0 && Quot(x * base + digit, d * base) == Quot(x, d)
  {
    hide Quot, Rem;
    Unique(x * base + digit, base, x, digit);
    QuotQuot(x * base + digit, base, d);
    assert base * d == d * base;
  }

  /** A number known modulo a multiple of `d * m` gives the digit above `d`. */
  lemma RemQuot(x: nat, d: nat, m: nat, k: nat)
    requires d > 0 && m > 0 && k > 0
    ensures d * m * k > 0 && Rem(Quot(Rem(x, d * m * k), d), m) == Rem(Quot(x, d), m)
  {
    hide Quot, Rem;
    var w := d * m * k;
    Positive(d, m, k);
    QuotRem(x, w);
    var v, q := Rem(x, w), Quot(x, w);
    QuotRem(v, d);
    var y := Quot(v, d);
    assert q * w == q * k * m * d by { assert q * (d * m * k) == q * k * m * d; }
    assert x == (q * k * m + y) * d + Rem(v, d) by {
      assert (q * k * m + y) * d == q * k * m * d + y * d;
    }
    Unique(x, d, q * k * m + y, Rem(v, d));
    QuotRem(y, m);
    assert q * k * m + y == (q * k + Quot(y, m)) * m + Rem(y, m) by {
      assert (q * k + Quot(y, m)) * m == q * k * m + Quot(y, m) * m;
    }
    Unique(q * k * m + y, m, q * k + Quot(y, m), Rem(y, m));
  }

  lemma Positive(a: nat, b: nat, c: nat)
    requires a > 0 && b > 0 && c > 0
    ensures a * b * c > 0
  {
    assert a * b > 0;
  }

  /** A number known modulo a multiple of `m` gives its scaled low digit. */
  lemma RemScale(x: nat, s: nat, m: nat, k: nat)
    requires m > 0 && k > 0
    ensures m * k > 0 && Rem(Rem(x, m * k) * s, m) == Rem(x * s, m)
  {
    hide Quot, Rem;
    assert m * k > 0;
    QuotRem(x, m * k);
    var v, q := Rem(x, m * k), Quot(x, m * k);
    QuotRem(v * s, m);
    assert x * s == (q * k * s + Quot(v * s, m)) * m + Rem(v * s, m) by {
      assert (q * (m * k) + v) * s == q * (m * k) * s + v * s;
      assert q * (m * k) * s == q * k * s * m;
      assert (q * k * s + Quot(v * s, m)) * m == q * k * s * m + Quot(v * s, m) * m;
    }
    Unique(x * s, m, q * k * s + Quot(v * s, m), Rem(v * s, m));
  }

  // ------------------------------------------------------------------- digits

  /** The big-endian value of digits in the given base. */
  function Number(digits: seq<nat>, base: nat): nat {
    if digits == [] then 0 else Number(digits[..|digits| - 1], base) * base + digits[|digits| - 1]
  }

  /** The `count` low digits of `x`, most significant first. */
  function Digits(x: nat, count: nat, base: nat): (r: seq<nat>)
    requires base > 0
    ensures |r| == count
    decreases count
  {
    if count == 0 then [] else Digits(Quot(x, base), count - 1, base) + [Rem(x, base)]
  }

  lemma {:induction false} DigitsBelow(x: nat, count: nat, base: nat)
    requires base > 0
    ensures forall i :: 0 <= i < count ==> Digits(x, count, base)[i] < base
    decreases count
  {
    hide Quot, Rem;
    if count > 0 { DigitsBelow(Quot(x, base), count - 1, base); }
  }

  lemma {:induction false} DigitsOfNumber(digits: seq<nat>, base: nat)
    requires base > 0 && forall i :: 0 <= i < |digits| ==> digits[i] < base
    ensures Digits(Number(digits, base), |digits|, base) == digits
    decreases |digits|
  {
    hide Quot, Rem;
    if digits != [] {
      var init, last := digits[..|digits| - 1], digits[|digits| - 1];
      DigitsOfNumber(init, base);
      Unique(Number(digits, base), base, Number(init, base), last);
      assert digits == init + [last];
    }
  }

  /** `x` fits `count` digits. */
  ghost predicate Fits(x: nat, count: nat, base: nat)
    requires base > 0
    decreases count
  {
    if count == 0 then x == 0 else Fits(Quot(x, base), count - 1, base)
  }

  lemma {:induction false} NumberOfDigits(x: nat, count: nat, base: nat)
    requires base > 0 && Fits(x, count, base)
    ensures Number(Digits(x, count, base), base) == x
    decreases count
  {
    hide Quot, Rem;
    if count > 0 {
      var d := Digits(x, count, base);
      assert d[..count - 1] == Digits(Quot(x, base), count - 1, base);
      NumberOfDigits(Quot(x, base), count - 1, base);
      QuotRem(x, base);
    }
  }

  // ------------------------------------------------------------------ the codec

  const WORD := 0x1_0000_0000

  /** How many characters, and with how many bits of padding, hold `n` bytes. */
  function Characters(n: nat): nat { (8 * n + 4) / 5 }

  function PadBits(n: nat): nat { 5 * Characters(n) - 8 * n }

  function Symbols(digits: seq<nat>): string
    requires forall i :: 0 <= i < |digits| ==> digits[i] < 32
  {
    seq(|digits|, i requires 0 <= i < |digits| => Symbol(digits[i]))
  }

  /** The number that the bytes spell, padded, in base 32. */
  function EncodedDigits(bytes: Bytes): seq<nat> {
    Digits(Number(bytes, 256) * Pow2(PadBits(|bytes|)), Characters(|bytes|), 32)
  }

  function Encode(bytes: Bytes): (r: string)
    ensures |r| == Characters(|bytes|)
  {
    DigitsBelow(Number(bytes, 256) * Pow2(PadBits(|bytes|)), Characters(|bytes|), 32);
    Symbols(EncodedDigits(bytes))
  }

  /** The digits of a string, or nothing when a character is not in the table. */
  function Values(s: string): Result<seq<nat>> {
    if s == [] then Ok([])
    else
      var init :- Values(s[..|s| - 1]);
      var last := ValueOf(s[|s| - 1]);
      if last.None? then Err else Ok(init + [last.value])
  }

  /** The whole bytes of the number that the characters spell. */
  function Decode(s: string): Result<seq<nat>> {
    var digits :- Values(s);
    Ok(Digits(Quot(Number(digits, 32), Pow2(5 * |s| % 8)), 5 * |s| / 8, 256))
  }

  lemma {:induction false} ValuesOfSymbols(digits: seq<nat>)
    requires forall i :: 0 <= i < |digits| ==> digits[i] < 32
    ensures Values(Symbols(digits)) == Ok(digits)
    decreases |digits|
  {
    hide Symbol, ValueOf;
    if digits != [] {
      var init := digits[..|digits| - 1];
      ValuesOfSymbols(init);
      ValueOfSymbol(digits[|digits| - 1]);
      assert Symbols(digits)[..|digits| - 1] == Symbols(init);
      assert init + [digits[|digits| - 1]] == digits;
    }
  }

  lemma {:induction false} FitsBelow(x: nat, count: nat)
    requires x < Pow2(5 * count)
    ensures Fits(x, count, 32)
    decreases count
  {
    hide Quot;
    if count > 0 {
      PowSplit(5 * (count - 1), 5);
      Pow2Of5();
      QuotBelow(x, 32, Pow2(5 * (count - 1)));
      FitsBelow(Quot(x, 32), count - 1);
    }
  }

  lemma Pow2Of5()
    ensures Pow2(5) == 32
  {
    assert Pow2(3) == 8;
  }

  lemma QuotBelow(x: nat, d: nat, limit: nat)
    requires d > 0 && x < limit * d
    ensures Quot(x, d) < limit
  {
    hide Quot, Rem;
    QuotRem(x, d);
    Apart(limit, Quot(x, d), d);
  }

  lemma {:induction false} PowSplit(a: nat, b: nat)
    ensures Pow2(a + b) == Pow2(a) * Pow2(b)
    decreases b
  {
    if b > 0 {
      PowSplit(a, b - 1);
      assert Pow2(a) * (2 * Pow2(b - 1)) == 2 * (Pow2(a) * Pow2(b - 1));
    }
  }

  lemma {:induction false} NumberBelow(bytes: Bytes)
    ensures Number(bytes, 256) < Pow2(8 * |bytes|)
    decreases |bytes|
  {
    if bytes != [] {
      NumberBelow(bytes[..|bytes| - 1]);
      PowSplit(8 * (|bytes| - 1), 8);
      assert Pow2(8) == 256 by { assert Pow2(3) == 8; assert Pow2(6) == 64; }
    }
  }

  lemma Lengths(n: nat)
    ensures 5 * Characters(n) / 8 == n && 5 * Characters(n) % 8 == PadBits(n)
    ensures 8 * n + PadBits(n) == 5 * Characters(n)
  {
  }

  /** The padded number of some bytes fits its characters, and loses the padding again. */
  lemma Padded(bytes: Bytes)
    ensures var x := Number(bytes, 256);
            var y := x * Pow2(PadBits(|bytes|));
            Fits(y, Characters(|bytes|), 32) && Quot(y, Pow2(PadBits(|bytes|))) == x
  {
    hide Quot, Rem, Number, Pow2, Fits, Characters, PadBits;
    var n, pad := |bytes|, PadBits(|bytes|);
    var x := Number(bytes, 256);
    Lengths(n);
    NumberBelow(bytes);
    PowSplit(8 * n, pad);
    Apart(x, Pow2(8 * n), Pow2(pad));
    FitsBelow(x * Pow2(pad), Characters(n));
    Unique(x * Pow2(pad), Pow2(pad), x, 0);
  }

  /** Decoding undoes encoding. */
  lemma RoundTrip(bytes: Bytes)
    ensures Decode(Encode(bytes)) == Ok(bytes)
  {
    hide Quot, Rem, Symbols, Values, Digits, Number, Pow2, Fits, Characters, PadBits;
    var y := Number(bytes, 256) * Pow2(PadBits(|bytes|));
    Lengths(|bytes|);
    Padded(bytes);
    DigitsBelow(y, Characters(|bytes|), 32);
    ValuesOfSymbols(EncodedDigits(bytes));
    NumberOfDigits(y, Characters(|bytes|), 32);
    DigitsOfNumber(bytes, 256);
  }

  // ------------------------------------------------------- the program's loops

  /** `digits` are the digits of `x` above its `bits` low bits. */
  ghost predicate Held(digits: seq<nat>, x: nat, bits: nat, base: nat)
    requires base > 0
  {
    digits == Digits(Quot(x, Pow2(bits)), |digits|, base)
  }

  lemma Start(base: nat)
    requires base > 0
    ensures Number([], base) == 0 && Rem(0, WORD) == 0 && Held([], 0, 0, base)
  {
  }

  lemma NumberAppend(digits: seq<nat>, i: nat, base: nat)
    requires i < |digits|
    ensures Number(digits[..i + 1], base) == Number(digits[..i], base) * base + digits[i]
  {
    assert digits[..i + 1][..i] == digits[..i];
  }

  /** The accumulator may wrap before a digit comes in. */
  lemma Wraps(x: nat, base: nat, digit: nat)
    ensures Rem(Rem(x, WORD) * base + digit, WORD) == Rem(x * base + digit, WORD)
  {
    hide Quot, Rem;
    QuotRem(x, WORD);
    var v, q := Rem(x, WORD), Quot(x, WORD);
    QuotRem(v * base + digit, WORD);
    assert x * base == q * base * WORD + v * base by {
      assert (q * WORD + v) * base == q * WORD * base + v * base;
      assert q * WORD * base == q * base * WORD;
    }
    var r := Quot(v * base + digit, WORD);
    assert (q * base + r) * WORD == q * base * WORD + r * WORD;
    Unique(x * base + digit, WORD, q * base + r, Rem(v * base + digit, WORD));
  }

  lemma HeldAppend(digits: seq<nat>, x: nat, bits: nat, k: nat, digit: nat, base: nat)
    requires base > 0 && digit < Pow2(k) && Held(digits, x, bits, base)
    ensures Held(digits, x * Pow2(k) + digit, bits + k, base)
  {
    hide Quot, Pow2, Digits;
    PowSplit(bits, k);
    QuotAppend(x, Pow2(k), digit, Pow2(bits));
  }

  lemma WordBits(j: nat, k: nat)
    requires j + k <= 32
    ensures Pow2(j) * Pow2(k) * Pow2(32 - j - k) == WORD
  {
    hide Pow2;
    PowSplit(j, k);
    PowSplit(j + k, 32 - j - k);
    Pow2Of32();
  }

  lemma Pow2Of32()
    ensures Pow2(32) == WORD
  {
    hide Pow2;
    Pow2Of8();
    PowSplit(8, 8);
    PowSplit(16, 16);
  }

  /** The next digit is read from the wrapped accumulator. */
  lemma TopDigit(x: nat, j: nat, k: nat)
    requires j + k <= 32
    ensures Rem(Quot(Rem(x, WORD), Pow2(j)), Pow2(k)) == Rem(Quot(x, Pow2(j)), Pow2(k))
  {
    hide Quot, Rem, Pow2;
    WordBits(j, k);
    RemQuot(x, Pow2(j), Pow2(k), Pow2(32 - j - k));
  }

  lemma HeldShift(digits: seq<nat>, x: nat, bits: nat, k: nat)
    requires k <= bits && Held(digits, x, bits, Pow2(k))
    ensures Held(digits + [Rem(Quot(x, Pow2(bits - k)), Pow2(k))], x, bits - k, Pow2(k))
  {
    hide Quot, Rem, Pow2;
    PowSplit(bits - k, k);
    QuotQuot(x, Pow2(bits - k), Pow2(k));
  }

  /** The last character holds the bits left over, padded. */
  lemma Finish(x: nat, n: nat, digits: seq<nat>, bits: nat)
    requires bits < 5 && 5 * |digits| + bits == 8 * n && Held(digits, x, bits, 32)
    ensures Digits(x * Pow2(PadBits(n)), Characters(n), 32) ==
            if bits == 0 then digits else digits + [Rem(x * Pow2(5 - bits), 32)]
  {
    hide Quot, Rem, Pow2;
    var pad := PadBits(n);
    if bits == 0 {
      assert pad == 0 && Characters(n) == |digits|;
      assert Pow2(0) == 1 by { PowOf0(); }
      Unique(x, 1, x, 0);
    } else {
      assert pad == 5 - bits && Characters(n) == |digits| + 1;
      PowSplit(pad, bits);
      Pow2Of5();
      QuotQuot(x * Pow2(pad), Pow2(pad), Pow2(bits));
      Unique(x * Pow2(pad), Pow2(pad), x, 0);
    }
  }

  lemma PowOf0()
    ensures Pow2(0) == 1
  {
  }

  lemma Pow2Of8()
    ensures Pow2(8) == 256
  {
    assert Pow2(4) == 16;
    PowSplit(4, 4);
  }

  /** The last shift may wrap too. */
  lemma LastDigit(x: nat, s: nat)
    ensures Rem(Rem(Rem(x, WORD) * s, WORD), 32) == Rem(x * s, 32)
  {
    hide Quot, Rem;
    RemScale(x, s, 32, 0x800_0000);
    RemScale(Rem(x, WORD) * s, 1, 32, 0x800_0000);
  }

  /** `encodeZ32`. The accumulator is the number so far, modulo 2 to the 32. */
  method EncodeZ32(bytes: Bytes) returns (out: string)
    ensures out == Encode(bytes)
  {
    hide Quot, Rem, Symbol, Digits, Number, Pow2, Held, Characters, PadBits;
    var bits: nat, value: nat := 0, 0;
    out := "";
    ghost var digits: seq<nat> := [];
    Start(32);
    Start(256);
    Pow2Of5();
    Pow2Of8();
    assert bytes[..0] == [];
    for i := 0 to |bytes|
      invariant bits < 5 && 5 * |digits| + bits == 8 * i
      invariant value == Rem(Number(bytes[..i], 256), WORD)
      invariant Held(digits, Number(bytes[..i], 256), bits, 32)
      invariant Spelled(out, digits)
    {
      ghost var before := Number(bytes[..i], 256);
      ghost var now := Number(bytes[..i + 1], 256);
      NumberAppend(bytes, i, 256);
      value := Rem(value * 256 + bytes[i], WORD);
      Wraps(before, 256, bytes[i]);
      HeldAppend(digits, before, bits, 8, bytes[i], 32);
      bits := bits + 8;
      while bits >= 5
        invariant bits < 13 && 5 * |digits| + bits == 8 * (i + 1)
        invariant Held(digits, now, bits, 32)
        invariant Spelled(out, digits)
        decreases bits
      {
        var digit := Rem(Quot(value, Pow2(bits - 5)), 32);
        TopDigit(now, bits - 5, 5);
        HeldShift(digits, now, bits, 5);
        out := out + [Symbol(digit)];
        digits := digits + [digit];
        bits := bits - 5;
      }
    }
    assert bytes[..|bytes|] == bytes;
    Finish(Number(bytes, 256), |bytes|, digits, bits);
    LastDigit(Number(bytes, 256), Pow2(5 - bits));
    if bits > 0 {
      var digit := Rem(Rem(value * Pow2(5 - bits), WORD), 32);
      out := out + [Symbol(digit)];
      digits := digits + [digit];
    }
    assert digits == EncodedDigits(bytes);
  }

  ghost predicate Spelled(s: string, digits: seq<nat>) {
    (forall i :: 0 <= i < |digits| ==> digits[i] < 32) && s == Symbols(digits)
  }

  /** `decodeZ32` */
  method DecodeZ32(s: string) returns (r: Result<seq<nat>>)
    ensures r == Decode(s)
  {
    hide Quot, Rem, ValueOf, Digits, Number, Pow2, Held;
    var bits: nat, value: nat := 0, 0;
    var out: seq<nat> := [];
    ghost var digits: seq<nat> := [];
    Start(32);
    Start(256);
    Pow2Of5();
    Pow2Of8();
    assert s[..0] == [];
    for i := 0 to |s|
      invariant bits < 8 && 8 * |out| + bits == 5 * i
      invariant |digits| == i && Values(s[..i]) == Ok(digits)
      invariant value == Rem(Number(digits, 32), WORD)
      invariant Held(out, Number(digits, 32), bits, 256)
    {
      assert s[..i + 1][..i] == s[..i];
      var decoded := ValueOf(s[i]);
      if decoded.None? {
        ValuesPrefix(s, i + 1);
        return Err;
      }
      ghost var before := Number(digits, 32);
      ghost var longer := digits + [decoded.value];
      NumberAppend(longer, i, 32);
      assert longer[..i] == digits && longer[..i + 1] == longer;
      ghost var now := Number(longer, 32);
      value := Rem(value * 32 + decoded.value, WORD);
      Wraps(before, 32, decoded.value);
      HeldAppend(out, before, bits, 5, decoded.value, 256);
      bits := bits + 5;
      if bits >= 8 {
        TopDigit(now, bits - 8, 8);
        HeldShift(out, now, bits, 8);
        out := out + [Rem(Quot(value, Pow2(bits - 8)), 256)];
        bits := bits - 8;
      }
      digits := longer;
    }
    assert s[..|s|] == s;
    assert out == Digits(Quot(Number(digits, 32), Pow2(5 * |s| % 8)), 5 * |s| / 8, 256) by {
      WholeBytes(out, Number(digits, 32), bits, |s|);
    }
    r := Ok(out);
  }

  lemma WholeBytes(out: seq<nat>, x: nat, bits: nat, n: nat)
    requires bits < 8 && 8 * |out| + bits == 5 * n && Held(out, x, bits, 256)
    ensures out == Digits(Quot(x, Pow2(5 * n % 8)), 5 * n / 8, 256)
  {
  }

  /** A bad character spoils every longer string. */
  lemma {:induction false} ValuesPrefix(s: string, i: nat)
    requires i <= |s| && Values(s[..i]).Err?
    ensures Values(s).Err?
    decreases |s|
  {
    if i == |s| {
      assert s[..i] == s;
    } else {
      assert s[..|s| - 1][..i] == s[..i];
      ValuesPrefix(s[..|s| - 1], i);
    }
  }
}
