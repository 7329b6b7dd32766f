/** Postcard's variable-length integers: seven bits a byte, least significant
    first. The encoder takes any safe integer; the decoder stops at six bytes. */
module Postcard {
  import opened Bytes

  const MAX_SAFE := 0x1f_ffff_ffff_ffff
  /** 2 to the 42: six groups of seven bits. */
  const DECODE_LIMIT := 0x400_0000_0000

  function EncodeLen(value: nat): (r: Bytes)
    ensures |r| > 0
  {
    if value < 128 then [value] else [value % 128 + 128] + EncodeLen(value / 128)
  }

  /** `encodePostcardLen`'s loop. */
  method EncodePostcardLen(value: nat) returns (r: Result<Bytes>)
    ensures r == if value <= MAX_SAFE then Ok(EncodeLen(value)) else Err
  {
    if value > MAX_SAFE {
      return Err;
    }
    var out: Bytes := [];
    var remaining := value;
    while remaining >= 128
      invariant out + EncodeLen(remaining) == EncodeLen(value)
    {
      var head := [remaining % 128 + 128];
      assert out + (head + EncodeLen(remaining / 128)) == out + head + EncodeLen(remaining / 128);
      out := out + head;
      remaining := remaining / 128;
    }
    r := Ok(out + [remaining]);
  }

  /** `decodePostcardLen` from its `k`-th byte on; `scale` is 2 to the shift. */
  function DecodeFrom(buf: Bytes, pos: nat, value: nat, scale: nat, k: nat): (r: Result<Read<nat>>)
    ensures r.Ok? ==> pos < r.value.next <= |buf|
    decreases 6 - k
  {
    if pos >= |buf| then Err
    else
      var next := value + buf[pos] % 128 * scale;
      if buf[pos] < 128 then Ok(Read(next, pos + 1))
      else if k + 1 > 5 then Err
      else DecodeFrom(buf, pos + 1, next, scale * 128, k + 1)
  }

  function ReadLen(buf: Bytes, off: nat): (r: Result<Read<nat>>)
    ensures r.Ok? ==> off < r.value.next <= |buf|
  {
    DecodeFrom(buf, off, 0, 1, 0)
  }

  method DecodePostcardLen(buf: Bytes, offset: nat) returns (r: Result<Read<nat>>)
    ensures r == ReadLen(buf, offset)
  {
    var value: nat, scale: nat, shift: nat, pos: nat := 0, 1, 0, offset;
    ghost var k: nat := 0;
    while pos < |buf|
      invariant shift == 7 * k && k <= 5
      invariant DecodeFrom(buf, pos, value, scale, k) == ReadLen(buf, offset)
    {
      var byte_: int := buf[pos];
      value := value + byte_ % 128 * scale;
      pos := pos + 1;
      if byte_ < 128 {
        return Ok(Read(value, pos));
      }
      shift, k := shift + 7, k + 1;
      scale := scale * 128;
      if shift > 35 {
        return Err;
      }
    }
    r := Err;
  }

  // -------------------------------------------------------------- round trip

  ghost function Groups(k: nat): nat {
    if k == 0 then 1 else 128 * Groups(k - 1)
  }

  lemma SplitScale(value: nat, scale: nat)
    ensures value % 128 * scale + value / 128 * (scale * 128) == value * scale
  {
    var q, r := value / 128, value % 128;
    assert value == 128 * q + r;
    assert (128 * q + r) * scale == 128 * q * scale + r * scale;
  }

  lemma GroupStep(k: nat, v: nat)
    requires k <= 5
    ensures v / 128 < Groups(5 - k) <==> v < Groups(6 - k)
    ensures Groups(6 - k) >= 128
  {
    GroupsPositive(5 - k);
    var g := Groups(5 - k);
    assert Groups(6 - k) == 128 * g;
  }

  lemma {:induction false} DecodeAt(buf: Bytes, off: nat, v: nat, value: nat, scale: nat, k: nat)
    requires Has(buf, off, EncodeLen(v)) && k <= 5
    ensures DecodeFrom(buf, off, value, scale, k) ==
            if v < Groups(6 - k) then Ok(Read(value + v * scale, off + |EncodeLen(v)|)) else Err
    decreases v
  {
    hide Has, Groups;
    HasIndex(buf, off, EncodeLen(v), 0);
    GroupStep(k, v);
    if v >= 128 {
      HasSplit(buf, off, [v % 128 + 128], EncodeLen(v / 128));
      SplitScale(v, scale);
      if k < 5 {
        DecodeAt(buf, off + 1, v / 128, value + v % 128 * scale, scale * 128, k + 1);
      } else {
        LastGroup();
      }
    }
  }

  lemma LastGroup()
    ensures Groups(1) == 128
  {
    assert Groups(0) == 1;
  }

  lemma {:induction false} GroupsPositive(k: nat)
    ensures Groups(k) >= 1
  {
    if k > 0 {
      GroupsPositive(k - 1);
    }
  }

  lemma SixGroups()
    ensures Groups(6) == DECODE_LIMIT
  {
    assert Groups(2) == 0x4000;
    assert Groups(4) == 0x1000_0000;
  }

  /** An encoded number reads back exactly when it is below 2 to the 42;
      otherwise the decoder refuses it. */
  lemma ReadLenAt(buf: Bytes, off: nat, v: nat)
    requires Has(buf, off, EncodeLen(v))
    ensures ReadLen(buf, off) == if v < DECODE_LIMIT then Ok(Read(v, off + |EncodeLen(v)|)) else Err
  {
    DecodeAt(buf, off, v, 0, 1, 0);
    SixGroups();
  }

  /** The first number that the encoder writes and the decoder refuses. */
  lemma WideLength()
    ensures DECODE_LIMIT <= MAX_SAFE && ReadLen(EncodeLen(DECODE_LIMIT), 0).Err?
  {
    hide EncodeLen, ReadLen;
    var e := EncodeLen(DECODE_LIMIT);
    assert e[0..|e|] == e;
    ReadLenAt(e, 0, DECODE_LIMIT);
  }
}
