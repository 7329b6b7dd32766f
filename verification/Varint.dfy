/** QUIC variable-length integers, section 16 of RFC 9000. */
module Varint {
  import opened Bytes
  import opened Postcard

  /** 2 to the 62, less one. */
  const MAX_VARINT := 0x3fff_ffff_ffff_ffff

  /** The `width` low bytes of `value`, most significant first. */
  function BeBytes(value: nat, width: nat): (r: Bytes)
    ensures |r| == width
  {
    if width == 0 then [] else BeBytes(value / 256, width - 1) + [value % 256]
  }

  /** The decoder's accumulator after `bytes`, started from `value`. */
  function Fold(value: nat, bytes: Bytes): nat {
    if bytes == [] then value else Fold(value, bytes[..|bytes| - 1]) * 256 + bytes[|bytes| - 1]
  }

  function Pow256(n: nat): (r: nat)
    ensures r > 0
  {
    if n == 0 then 1 else 256 * Pow256(n - 1)
  }

  /** `encodeVarInt`. Setting the two top bits of a value below them adds them. */
  function EncodeVarInt(value: nat): (r: Result<Bytes>)
    ensures r.Ok? <==> value <= MAX_VARINT
  {
    if value > MAX_VARINT then Err
    else if value < 0x40 then Ok([value])
    else if value < 0x4000 then Ok(BeBytes(0x4000 + value, 2))
    else if value < 0x4000_0000 then Ok(BeBytes(0x8000_0000 + value, 4))
    else Ok(BeBytes(0xc000_0000_0000_0000 + value, 8))
  }

  function LengthOf(first: nat): nat {
    if first < 64 then 1 else if first < 128 then 2 else if first < 192 then 4 else 8
  }

  function ReadVarInt(buf: Bytes, off: nat): (r: Result<Read<nat>>)
    ensures r.Ok? ==> off < r.value.next <= |buf|
  {
    if off >= |buf| || |buf| - off < LengthOf(buf[off]) then Err
    else
      var length := LengthOf(buf[off]);
      Ok(Read(Fold(buf[off] % 64, buf[off + 1..off + length]), off + length))
  }

  /** `decodeVarIntNumber` refuses what a safe integer cannot hold. */
  function ReadNumber(buf: Bytes, off: nat): (r: Result<Read<nat>>)
    ensures r.Ok? ==> off < r.value.next <= |buf|
  {
    var read :- ReadVarInt(buf, off);
    var _ :- Check(read.value <= MAX_SAFE);
    Ok(read)
  }

  /** `decodeVarInt`'s loop. */
  method DecodeVarInt(buf: Bytes, offset: nat) returns (r: Result<Read<nat>>)
    ensures r == ReadVarInt(buf, offset)
  {
    if offset >= |buf| {
      return Err;
    }
    var first: nat := buf[offset];
    var length := LengthOf(first);
    if |buf| - offset < length {
      return Err;
    }
    var value: nat := first % 64;
    for index := 1 to length
      invariant value == Fold(first % 64, buf[offset + 1..offset + index])
    {
      var more := buf[offset + 1..offset + index + 1];
      assert more[..|more| - 1] == buf[offset + 1..offset + index];
      value := value * 256 + buf[offset + index];
    }
    r := Ok(Read(value, offset + length));
  }

  // -------------------------------------------------------------- round trip

  lemma {:induction false} FoldScale(value: nat, bytes: Bytes)
    ensures Fold(value, bytes) == value * Pow256(|bytes|) + Fold(0, bytes)
    decreases |bytes|
  {
    if bytes != [] {
      var init := bytes[..|bytes| - 1];
      FoldScale(value, init);
      assert value * Pow256(|init|) * 256 == value * (256 * Pow256(|init|));
    }
  }

  lemma {:induction false} FoldBytes(value: nat, width: nat)
    requires value < Pow256(width)
    ensures Fold(0, BeBytes(value, width)) == value
    decreases width
  {
    if width > 0 {
      FoldBytes(value / 256, width - 1);
      var bytes := BeBytes(value, width);
      assert bytes[..width - 1] == BeBytes(value / 256, width - 1);
    }
  }

  lemma {:induction false} FoldHead(first: byte, rest: Bytes)
    ensures Fold(0, [first] + rest) == Fold(first, rest)
    decreases |rest|
  {
    var bytes := [first] + rest;
    if rest == [] {
      assert bytes == [first] && bytes[..0] == [];
    } else {
      assert bytes[..|bytes| - 1] == [first] + rest[..|rest| - 1];
      FoldHead(first, rest[..|rest| - 1]);
    }
  }

  lemma {:induction false} FoldBound(bytes: Bytes)
    ensures Fold(0, bytes) < Pow256(|bytes|)
    decreases |bytes|
  {
    if bytes != [] { FoldBound(bytes[..|bytes| - 1]); }
  }

  lemma Powers()
    ensures Pow256(1) == 0x100 && Pow256(2) == 0x1_0000 && Pow256(3) == 0x100_0000 && Pow256(4) == 0x1_0000_0000
    ensures Pow256(7) == 0x100_0000_0000_0000 && Pow256(8) == 0x1_0000_0000_0000_0000
  {
    assert Pow256(2) == 256 * Pow256(1);
    assert Pow256(3) == 256 * Pow256(2);
    assert Pow256(4) == 256 * Pow256(3);
    assert Pow256(5) == 256 * Pow256(4);
    assert Pow256(6) == 256 * Pow256(5);
    assert Pow256(7) == 256 * Pow256(6);
    assert Pow256(8) == 256 * Pow256(7);
  }

  /** The first byte of a tagged value holds the tag, and the rest gives back the value. */
  lemma Tagged(value: nat, tag: nat, width: nat, scale: nat)
    requires width > 0 && scale == Pow256(width - 1) && tag < 4 && value < 64 * scale
    ensures var e := BeBytes(tag * (64 * scale) + value, width);
            e[0] / 64 == tag && Fold(e[0] % 64, e[1..]) == value
  {
    hide BeBytes, Fold;
    var whole := tag * (64 * scale) + value;
    var e := BeBytes(whole, width);
    assert whole < Pow256(width) by {
      assert tag * (64 * scale) <= 3 * (64 * scale);
    }
    FoldBytes(whole, width);
    assert e == [e[0]] + e[1..];
    FoldHead(e[0], e[1..]);
    var first: nat := e[0];
    FoldScale(first, e[1..]);
    FoldScale(first % 64, e[1..]);
    FoldBound(e[1..]);
    TagSplit(first, tag, value, scale, Fold(0, e[1..]));
  }

  lemma TagSplit(first: nat, tag: nat, value: nat, scale: nat, low: nat)
    requires first * scale + low == tag * (64 * scale) + value
    requires low < scale && value < 64 * scale
    ensures first / 64 == tag && first % 64 * scale + low == value
  {
    var q, m := first / 64, first % 64;
    assert first * scale == q * (64 * scale) + m * scale by {
      assert first == 64 * q + m;
      assert (64 * q + m) * scale == 64 * q * scale + m * scale;
      assert 64 * q * scale == q * (64 * scale);
    }
    var unit := 64 * scale;
    assert m * scale + low < unit by {
      assert m <= 63;
      assert m * scale <= 63 * scale;
    }
    Quotient(q, m * scale + low, tag, value, unit);
  }

  lemma Quotient(q: nat, r: nat, p: nat, s: nat, unit: nat)
    requires q * unit + r == p * unit + s && r < unit && s < unit
    ensures q == p && r == s
  {
    Below(q, p, unit);
    Below(p, q, unit);
  }

  lemma Below(q: nat, p: nat, unit: nat)
    ensures q < p ==> q * unit + unit <= p * unit
  {
    if q < p {
      assert (q + 1) * unit <= p * unit;
      assert (q + 1) * unit == q * unit + unit;
    }
  }

  /** Wherever an encoded integer stands, decoding gives it back and stops
      right after it. */
  lemma VarIntAt(buf: Bytes, off: nat, value: nat, e: Bytes)
    requires EncodeVarInt(value) == Ok(e) && Has(buf, off, e)
    ensures ReadVarInt(buf, off) == Ok(Read(value, off + |e|))
  {
    hide BeBytes, Fold, Pow256;
    Powers();
    if value < 0x40 {
      HasIndex(buf, off, e, 0);
      assert buf[off + 1..off + 1] == [];
      NoFold(value);
    } else {
      var tag := if value < 0x4000 then 1 else if value < 0x4000_0000 then 2 else 3;
      var width := if tag == 1 then 2 else if tag == 2 then 4 else 8;
      var scale := if tag == 1 then 0x100 else if tag == 2 then 0x100_0000 else 0x100_0000_0000_0000;
      Tagged(value, tag, width, scale);
      HasIndex(buf, off, e, 0);
      assert buf[off + 1..off + width] == e[1..] by {
        assert buf[off + 1..off + width] == buf[off..off + width][1..];
      }
    }
  }

  lemma NoFold(value: nat)
    ensures Fold(value, []) == value
  {
  }

  /** `decodeVarIntNumber` gives back exactly the safe integers. */
  lemma NumberAt(buf: Bytes, off: nat, value: nat, e: Bytes)
    requires EncodeVarInt(value) == Ok(e) && Has(buf, off, e)
    ensures ReadNumber(buf, off) == if value <= MAX_SAFE then Ok(Read(value, off + |e|)) else Err
  {
    hide ReadVarInt, EncodeVarInt;
    VarIntAt(buf, off, value, e);
  }
}
