/** Header protection (section 5.4 of RFC 9001), packet nonces (section 5.3)
    and the state that numbers 1-RTT packets. The block cipher and the AEAD are
    parameters. */
module QuicProtection {
  import opened Bytes
  import opened Varint

  type Octets = seq<bv8>

  /** The five mask bytes that the cipher makes of a sample. */
  type Mask = m: Octets | |m| == 5 witness [0, 0, 0, 0, 0]

  const MAX_PACKET_NUMBER := 0x3fff_ffff_ffff_ffff

  // -------------------------------------------------------- header protection

  predicate IsLong(first: bv8) { first & 0x80 != 0 }

  /** The bits of the first byte that are protected, by header form. */
  function FirstMask(first: bv8): bv8 { if IsLong(first) then 0x0f else 0x1f }

  /** The packet number length is in the two low bits. */
  function NumberLength(first: bv8): (n: nat)
    ensures 1 <= n <= 4
  {
    var low := first & 0x03;
    if low == 0 then 1 else if low == 1 then 2 else if low == 2 then 3 else 4
  }

  function Mix(a: bv8, m: bv8): bv8 { a ^ m }

  /** The first byte combined with the mask bits that `firstMask` lets through. */
  function MixFirst(a: bv8, m: bv8, firstMask: bv8): bv8 { a ^ (m & firstMask) }

  function Sample(packet: Octets, offset: nat): (r: Result<Octets>)
    ensures r.Ok? <==> offset + 20 <= |packet|
  {
    if |packet| < offset + 20 then Err else Ok(packet[offset + 4..offset + 20])
  }

  /** The first `n` bytes at `offset` combined with the mask after its first byte. */
  function XorNumber(packet: Octets, offset: nat, n: nat, mask: Mask): (r: Octets)
    requires n <= 4 && offset + n <= |packet|
    ensures |r| == |packet|
    ensures forall i :: 0 <= i < |packet| ==>
              r[i] == if offset <= i < offset + n then Mix(packet[i], mask[1 + i - offset]) else packet[i]
  {
    seq(|packet|, i requires 0 <= i < |packet| =>
      if offset <= i < offset + n then Mix(packet[i], mask[1 + i - offset]) else packet[i])
  }

  function Apply(packet: Octets, offset: nat, cipher: Octets -> Mask, firstMask: bv8): Result<Octets> {
    var sample :- Sample(packet, offset);
    var mask := cipher(sample);
    Ok(XorNumber(packet[0 := MixFirst(packet[0], mask[0], firstMask)], offset, NumberLength(packet[0]), mask))
  }

  datatype Unprotected = Unprotected(packet: Octets, first: bv8, length: nat)

  function Remove(packet: Octets, offset: nat, cipher: Octets -> Mask): Result<Unprotected> {
    var sample :- Sample(packet, offset);
    var mask := cipher(sample);
    var first := MixFirst(packet[0], mask[0], FirstMask(packet[0]));
    Ok(Unprotected(XorNumber(packet[0 := first], offset, NumberLength(first), mask), first, NumberLength(first)))
  }

  /** Removing protection gives back the packet. */
  ghost predicate Restores(packet: Octets, offset: nat, cipher: Octets -> Mask, firstMask: bv8) {
    var r := Apply(packet, offset, cipher, firstMask);
    r.Ok? && Remove(r.value, offset, cipher).Ok? && Remove(r.value, offset, cipher).value.packet == packet
  }

  /** A cipher that answers every sample alike. */
  function Constant(mask: Mask): Octets -> Mask { (_: Octets) => mask }

  lemma XorTwice(a: bv8, m: bv8)
    ensures Mix(Mix(a, m), m) == a
  {
  }

  lemma FirstByteBack(a: bv8, m: bv8)
    ensures var b := MixFirst(a, m, FirstMask(a));
            FirstMask(b) == FirstMask(a) && MixFirst(b, m, FirstMask(b)) == a
  {
  }

  /** With the mask of the header form, the packet, its first byte and its
      number length come back. */
  lemma MatchingRestores(packet: Octets, offset: nat, cipher: Octets -> Mask)
    requires offset + 20 <= |packet| && offset >= 1
    ensures Restores(packet, offset, cipher, FirstMask(packet[0]))
    ensures var p := Apply(packet, offset, cipher, FirstMask(packet[0]));
            p.Ok? && Remove(p.value, offset, cipher) == Ok(Unprotected(packet, packet[0], NumberLength(packet[0])))
  {
    hide FirstMask, NumberLength, Mix, MixFirst, XorNumber;
    var sample := packet[offset + 4..offset + 20];
    var mask := cipher(sample);
    FirstByteBack(packet[0], mask[0]);
    var n := NumberLength(packet[0]);
    var p := Apply(packet, offset, cipher, FirstMask(packet[0])).value;
    assert p[offset + 4..offset + 20] == sample;
    var q := Remove(p, offset, cipher).value;
    forall i | 0 <= i < |packet| ensures q.packet[i] == packet[i] {
      if offset <= i < offset + n { XorTwice(packet[i], mask[1 + i - offset]); }
    }
    assert q.packet == packet;
  }

  /** With any other mask of the first byte, some cipher output breaks it. */
  lemma OtherMaskBreaks(packet: Octets, offset: nat, firstMask: bv8)
    requires offset + 20 <= |packet| && offset >= 1 && firstMask != FirstMask(packet[0])
    ensures var cipher := Constant([firstMask ^ FirstMask(packet[0]), 0, 0, 0, 0]);
            !Restores(packet, offset, cipher, firstMask)
  {
    var cipher := Constant([firstMask ^ FirstMask(packet[0]), 0, 0, 0, 0]);
    hide FirstMask, NumberLength, Mix, MixFirst, XorNumber;
    var p := Apply(packet, offset, cipher, firstMask).value;
    WrongFirst(packet[0], firstMask);
    assert Remove(p, offset, cipher).value.packet[0] != packet[0];
  }

  lemma WrongFirst(a: bv8, firstMask: bv8)
    requires firstMask != FirstMask(a)
    ensures var m := firstMask ^ FirstMask(a);
            var b := MixFirst(a, m, firstMask);
            MixFirst(b, m, FirstMask(b)) != a
  {
  }

  /** With the number at the very start, flipping its low bit changes its length. */
  lemma NoHeaderBreaks(packet: Octets, firstMask: bv8)
    requires 20 <= |packet|
    ensures !Restores(packet, 0, Constant([0, 1, 1, 1, 1]), firstMask)
  {
    hide FirstMask, NumberLength, Mix, MixFirst, XorNumber;
    var cipher := Constant([0, 1, 1, 1, 1]);
    var p := Apply(packet, 0, cipher, firstMask).value;
    FlipFirst(packet[0], firstMask);
    var n, m := NumberLength(packet[0]), NumberLength(p[0]);
    var q := Remove(p, 0, cipher).value.packet;
    if m > n {
      Flips(packet[n]);
      assert q[n] == Mix(packet[n], 1);
    } else {
      Flips(packet[m]);
      assert q[m] == Mix(packet[m], 1);
    }
  }

  lemma FlipFirst(a: bv8, firstMask: bv8)
    ensures var b := Mix(MixFirst(a, 0, firstMask), 1);
            MixFirst(b, 0, FirstMask(b)) == b && NumberLength(b) != NumberLength(a)
  {
  }

  lemma Flips(a: bv8)
    ensures Mix(a, 1) != a
  {
  }

  /** For a packet long enough to sample, removing protection undoes applying it
      for every cipher if and only if the number does not start the packet and
      the mask is the one of the packet's header form. */
  lemma ProtectionRestoresIff(packet: Octets, offset: nat, firstMask: bv8)
    requires offset + 20 <= |packet|
    ensures (forall cipher: Octets -> Mask :: Restores(packet, offset, cipher, firstMask)) <==>
            offset >= 1 && firstMask == FirstMask(packet[0])
  {
    hide Restores, FirstMask;
    if offset == 0 {
      NoHeaderBreaks(packet, firstMask);
    } else if firstMask != FirstMask(packet[0]) {
      OtherMaskBreaks(packet, offset, firstMask);
    } else {
      forall cipher: Octets -> Mask ensures Restores(packet, offset, cipher, firstMask) {
        MatchingRestores(packet, offset, cipher);
      }
    }
  }

  /** `applyQuicHeaderProtection` */
  method ApplyHeaderProtection(packet: Octets, offset: nat, cipher: Octets -> Mask, firstMask: bv8)
      returns (r: Result<Octets>)
    ensures r == Apply(packet, offset, cipher, firstMask)
  {
    hide NumberLength, Mix, MixFirst;
    var sample :- Sample(packet, offset);
    var mask := cipher(sample);
    var out := new bv8[|packet|](i requires 0 <= i < |packet| => packet[i]);
    out[0] := MixFirst(packet[0], mask[0], firstMask);
    assert out[..] == packet[0 := MixFirst(packet[0], mask[0], firstMask)];
    XorInPlace(out, offset, NumberLength(packet[0]), mask);
    r := Ok(out[..]);
  }

  /** `removeQuicHeaderProtection` */
  method RemoveHeaderProtection(packet: Octets, offset: nat, cipher: Octets -> Mask)
      returns (r: Result<Unprotected>)
    ensures r == Remove(packet, offset, cipher)
  {
    hide NumberLength, Mix, MixFirst, FirstMask;
    var sample :- Sample(packet, offset);
    var mask := cipher(sample);
    var out := new bv8[|packet|](i requires 0 <= i < |packet| => packet[i]);
    var first := MixFirst(packet[0], mask[0], FirstMask(packet[0]));
    out[0] := first;
    assert out[..] == packet[0 := first];
    XorInPlace(out, offset, NumberLength(first), mask);
    r := Ok(Unprotected(out[..], first, NumberLength(first)));
  }

  method XorInPlace(out: array<bv8>, offset: nat, n: nat, mask: Mask)
    requires n <= 4 && offset + n <= out.Length
    modifies out
    ensures out[..] == XorNumber(old(out[..]), offset, n, mask)
  {
    hide Mix;
    for index := 0 to n
      invariant forall i :: 0 <= i < out.Length ==>
                  out[i] == if offset <= i < offset + index then Mix(old(out[i]), mask[1 + i - offset]) else old(out[i])
    {
      out[offset + index] := Mix(out[offset + index], mask[index + 1]);
    }
  }

  // ------------------------------------------------------------------- nonces

  /** The low `k` bits, least significant first. */
  function BitsOf(n: nat, k: nat): (bits: seq<bool>)
    ensures |bits| == k
  {
    if k == 0 then [] else [n % 2 == 1] + BitsOf(n / 2, k - 1)
  }

  function FromBits(bits: seq<bool>): bv8
    requires |bits| == 8
  {
    (if bits[7] then 0x80 else 0) | (if bits[6] then 0x40 else 0) | (if bits[5] then 0x20 else 0)
    | (if bits[4] then 0x10 else 0) | (if bits[3] then 0x08 else 0) | (if bits[2] then 0x04 else 0)
    | (if bits[1] then 0x02 else 0) | (if bits[0] then 0x01 else 0)
  }

  /** A number below 256 as a byte. */
  function Octet(n: nat): bv8
    requires n < 256
  {
    FromBits(BitsOf(n, 8))
  }

  lemma {:induction false} BitsInjective(a: nat, b: nat, k: nat)
    requires a < Pow2(k) && b < Pow2(k) && BitsOf(a, k) == BitsOf(b, k)
    ensures a == b
    decreases k
  {
    if k > 0 {
      assert BitsOf(a, k)[0] == BitsOf(b, k)[0];
      assert BitsOf(a / 2, k - 1) == BitsOf(a, k)[1..] == BitsOf(b, k)[1..] == BitsOf(b / 2, k - 1);
      BitsInjective(a / 2, b / 2, k - 1);
    }
  }

  lemma FromBitsInjective(a: seq<bool>, b: seq<bool>)
    requires |a| == |b| == 8 && FromBits(a) == FromBits(b)
    ensures a == b
  {
    assert a[0] == b[0] && a[1] == b[1] && a[2] == b[2] && a[3] == b[3];
    assert a[4] == b[4] && a[5] == b[5] && a[6] == b[6] && a[7] == b[7];
  }

  lemma OctetInjective(a: nat, b: nat)
    requires a < 256 && b < 256 && Octet(a) == Octet(b)
    ensures a == b
  {
    hide FromBits, BitsOf;
    FromBitsInjective(BitsOf(a, 8), BitsOf(b, 8));
    assert Pow2(8) == 256 by { assert Pow2(4) == 16; assert Pow2(6) == 64; }
    BitsInjective(a, b, 8);
  }

  /** The number's bytes, least significant last, combined with the `count` first bytes. */
  function NonceFrom(nonce: Octets, count: nat, number: nat): (r: Octets)
    requires count <= |nonce|
    ensures |r| == |nonce| && forall i :: count <= i < |nonce| ==> r[i] == nonce[i]
    decreases count
  {
    if count == 0 then nonce
    else NonceFrom(nonce[count - 1 := Mix(nonce[count - 1], Octet(number % 256))], count - 1, number / 256)
  }

  type Iv = iv: Octets | |iv| == 12 witness [0, 0, 0, 0, 0, 0, 0, 0, 0, 0, 0, 0]

  function PacketNonce(iv: Iv, number: nat): Octets { NonceFrom(iv, 12, number) }

  lemma {:induction false} NonceZero(nonce: Octets, count: nat)
    requires count <= |nonce|
    ensures NonceFrom(nonce, count, 0) == nonce
    decreases count
  {
    if count > 0 {
      MixZero(nonce[count - 1]);
      assert nonce[count - 1 := nonce[count - 1]] == nonce;
      NonceZero(nonce, count - 1);
    }
  }

  lemma MixZero(a: bv8)
    ensures Mix(a, Octet(0)) == a
  {
    ZeroBits(8);
  }

  lemma {:induction false} ZeroBits(k: nat)
    ensures forall i :: 0 <= i < k ==> !BitsOf(0, k)[i]
    decreases k
  {
    if k > 0 { ZeroBits(k - 1); }
  }

  lemma MixInjective(a: bv8, m: bv8, k: bv8)
    requires Mix(a, m) == Mix(a, k)
    ensures m == k
  {
    assert m == a ^ (a ^ m) && k == a ^ (a ^ k);
  }

  /** `quicPacketNonce`'s loop stops when no byte of the number is left. */
  method QuicPacketNonce(iv: Iv, number: nat) returns (nonce: Octets)
    ensures nonce == PacketNonce(iv, number)
  {
    hide Mix, Octet;
    nonce := iv;
    var remaining, index: nat := number, 12;
    while index > 0 && remaining > 0
      invariant index <= 12 && |nonce| == 12
      invariant NonceFrom(iv, 12, number) == NonceFrom(nonce, index, remaining)
    {
      nonce := nonce[index - 1 := Mix(nonce[index - 1], Octet(remaining % 256))];
      remaining, index := remaining / 256, index - 1;
    }
    if remaining == 0 { NonceZero(nonce, index); }
  }

  /** Different numbers make different nonces. */
  lemma {:induction false} NonceInjective(nonce: Octets, count: nat, a: nat, b: nat)
    requires count <= |nonce| && a < Pow256(count) && b < Pow256(count)
    requires NonceFrom(nonce, count, a) == NonceFrom(nonce, count, b)
    ensures a == b
    decreases count
  {
    hide Mix, Octet;
    if count > 0 {
      var i := count - 1;
      assert NonceFrom(nonce, count, a)[i] == Mix(nonce[i], Octet(a % 256));
      assert NonceFrom(nonce, count, b)[i] == Mix(nonce[i], Octet(b % 256));
      MixInjective(nonce[i], Octet(a % 256), Octet(b % 256));
      OctetInjective(a % 256, b % 256);
      NonceInjective(nonce[i := Mix(nonce[i], Octet(a % 256))], i, a / 256, b / 256);
    }
  }

  lemma NoncesDiffer(iv: Iv, a: nat, b: nat)
    requires a <= MAX_PACKET_NUMBER && b <= MAX_PACKET_NUMBER && a != b
    ensures PacketNonce(iv, a) != PacketNonce(iv, b)
  {
    hide NonceFrom, Pow256;
    assert MAX_PACKET_NUMBER < Pow256(12) by { TwelveBytes(); }
    if PacketNonce(iv, a) == PacketNonce(iv, b) { NonceInjective(iv, 12, a, b); }
  }

  lemma TwelveBytes()
    ensures Pow256(12) > MAX_PACKET_NUMBER
  {
    assert Pow256(4) == 256 * Pow256(3) && Pow256(2) == 256 * Pow256(1) && Pow256(3) == 256 * Pow256(2);
    assert Pow256(8) == 256 * Pow256(7) && Pow256(6) == 256 * Pow256(5) && Pow256(7) == 256 * Pow256(6);
    assert Pow256(5) == 256 * Pow256(4) && Pow256(10) == 256 * Pow256(9) && Pow256(9) == 256 * Pow256(8);
    assert Pow256(12) == 256 * Pow256(11) && Pow256(11) == 256 * Pow256(10);
  }

  // ------------------------------------------------------------- 1-RTT packets

  /** What a direction's keys do: seal under a nonce, and mask a sample. */
  datatype Keys = Keys(iv: Iv, seal: (Octets, Octets, Octets) -> Octets, cipher: Octets -> Mask)

  /** Sealing adds a tag of 16 bytes. */
  ghost predicate Tags(keys: Keys) {
    forall nonce, header, payload :: |keys.seal(nonce, header, payload)| == |payload| + 16
  }

  /** `selectQuicOneRttPacketNumberLength` */
  function WireLength(number: nat): (n: nat)
    ensures 1 <= n <= 4
  {
    if number <= 0xff then 1 else if number <= 0xffff then 2 else if number <= 0xff_ffff then 3 else 4
  }

  /** `encodeQuicTruncatedPacketNumber` */
  function Truncated(number: nat, n: nat): (r: Octets)
    ensures |r| == n
  {
    if n == 0 then [] else Truncated(number / 256, n - 1) + [Octet(number % 256)]
  }

  function ShortFirst(n: nat): bv8
    requires 1 <= n <= 4
  {
    if n == 1 then 0x40 else if n == 2 then 0x41 else if n == 3 then 0x42 else 0x43
  }

  function Header(connection: Octets, number: nat): (r: Octets)
    ensures |r| == 1 + |connection| + WireLength(number)
  {
    [ShortFirst(WireLength(number))] + connection + Truncated(number, WireLength(number))
  }

  /** The packet before header protection. */
  function Sealed(keys: Keys, connection: Octets, number: nat, payload: Octets): Octets {
    var header := Header(connection, number);
    header + keys.seal(PacketNonce(keys.iv, number), header, payload)
  }

  /** `encryptQuicOneRttPacket` */
  function EncryptOneRtt(keys: Keys, connection: Octets, number: nat, payload: Octets): Result<Octets> {
    Apply(Sealed(keys, connection, number, payload), 1 + |connection|, keys.cipher, 0x1f)
  }

  /** There is enough after the number to sample. */
  predicate Samplable(number: nat, payload: Octets) { WireLength(number) + |payload| >= 4 }

  lemma EncryptsIff(keys: Keys, connection: Octets, number: nat, payload: Octets)
    requires Tags(keys)
    ensures EncryptOneRtt(keys, connection, number, payload).Ok? <==> Samplable(number, payload)
  {
    hide PacketNonce, Truncated, ShortFirst;
    var header := Header(connection, number);
    assert |keys.seal(PacketNonce(keys.iv, number), header, payload)| == |payload| + 16;
  }

  lemma ShortForm(n: nat)
    requires 1 <= n <= 4
    ensures FirstMask(ShortFirst(n)) == 0x1f && NumberLength(ShortFirst(n)) == n
  {
  }

  /** The receiver gets back exactly what was sealed, and the number's length. */
  lemma OneRttRestores(keys: Keys, connection: Octets, number: nat, payload: Octets, packet: Octets)
    requires EncryptOneRtt(keys, connection, number, payload) == Ok(packet)
    ensures Remove(packet, 1 + |connection|, keys.cipher) ==
            Ok(Unprotected(Sealed(keys, connection, number, payload), ShortFirst(WireLength(number)),
                           WireLength(number)))
  {
    hide FirstMask, NumberLength, ShortFirst, PacketNonce, Truncated, Remove;
    var plain := Sealed(keys, connection, number, payload);
    ShortForm(WireLength(number));
    assert plain[0] == ShortFirst(WireLength(number));
    MatchingRestores(plain, 1 + |connection|, keys.cipher);
  }

  /** What is to be sent, and under which keys. */
  datatype Outgoing = Outgoing(keys: Keys, connection: Octets, payload: Octets)

  datatype SendStep = SendStep(next: nat, packet: Result<Octets>)

  /** One send: a refused packet leaves the number to the next one, and the
      last number is never used. */
  function SendOne(next: nat, o: Outgoing): SendStep {
    if next >= MAX_PACKET_NUMBER then SendStep(next, Err)
    else
      var packet := EncryptOneRtt(o.keys, o.connection, next, o.payload);
      SendStep(if packet.Ok? then next + 1 else next, packet)
  }

  class OneRttSendState {
    var nextPacketNumber: nat

    constructor (next: nat)
      requires next <= MAX_PACKET_NUMBER
      ensures nextPacketNumber == next
    {
      nextPacketNumber := next;
    }

    method Send(keys: Keys, connection: Octets, payload: Octets) returns (r: Result<Octets>)
      requires nextPacketNumber <= MAX_PACKET_NUMBER
      modifies this
      ensures nextPacketNumber <= MAX_PACKET_NUMBER
      ensures SendStep(nextPacketNumber, r) == SendOne(old(nextPacketNumber), Outgoing(keys, connection, payload))
    {
      if nextPacketNumber == MAX_PACKET_NUMBER {
        return Err;
      }
      r := EncryptOneRtt(keys, connection, nextPacketNumber, payload);
      if r.Ok? {
        nextPacketNumber := nextPacketNumber + 1;
      }
    }
  }

  // --------------------------------------------------------------------- runs

  /** A packet number used under an IV. */
  datatype Use = Use(iv: Iv, number: nat)

  /** What a run of sends seals under, the refused ones too. */
  ghost function Sealings(next: nat, sends: seq<Outgoing>): seq<Use>
    decreases |sends|
  {
    if sends == [] || next >= MAX_PACKET_NUMBER then []
    else [Use(sends[0].keys.iv, next)] + Sealings(SendOne(next, sends[0]).next, sends[1..])
  }

  /** What the packets that a run of sends returns are sealed under. */
  ghost function Returned(next: nat, sends: seq<Outgoing>): seq<Use>
    decreases |sends|
  {
    if sends == [] then []
    else
      var s := SendOne(next, sends[0]);
      (if s.packet.Ok? then [Use(sends[0].keys.iv, next)] else []) + Returned(s.next, sends[1..])
  }

  /** No nonce is used twice under one IV. */
  ghost predicate DistinctNonces(uses: seq<Use>) {
    forall i, j :: 0 <= i < j < |uses| && uses[i].iv == uses[j].iv ==>
      PacketNonce(uses[i].iv, uses[i].number) != PacketNonce(uses[j].iv, uses[j].number)
  }

  lemma SendAdvances(next: nat, o: Outgoing)
    ensures SendOne(next, o).next == next + if SendOne(next, o).packet.Ok? then 1 else 0
    ensures SendOne(next, o).packet.Ok? ==> next < MAX_PACKET_NUMBER
  {
    hide EncryptOneRtt;
  }

  lemma {:induction false} ReturnedAbove(next: nat, sends: seq<Outgoing>, i: nat)
    requires i < |Returned(next, sends)|
    ensures next <= Returned(next, sends)[i].number < MAX_PACKET_NUMBER
    decreases |sends|
  {
    hide SendOne;
    SendAdvances(next, sends[0]);
    var s := SendOne(next, sends[0]);
    if !s.packet.Ok? {
      ReturnedAbove(s.next, sends[1..], i);
    } else if i > 0 {
      ReturnedAbove(s.next, sends[1..], i - 1);
    }
  }

  lemma {:induction false} ReturnedIncrease(next: nat, sends: seq<Outgoing>, i: nat, j: nat)
    requires i < j < |Returned(next, sends)|
    ensures Returned(next, sends)[i].number < Returned(next, sends)[j].number
    decreases |sends|
  {
    hide SendOne;
    SendAdvances(next, sends[0]);
    var s := SendOne(next, sends[0]);
    if !s.packet.Ok? {
      ReturnedIncrease(s.next, sends[1..], i, j);
    } else if i > 0 {
      ReturnedIncrease(s.next, sends[1..], i - 1, j - 1);
    } else {
      ReturnedAbove(s.next, sends[1..], j - 1);
    }
  }

  /** Over every run of sends, whatever their keys, no two packets returned
      under one IV have the same nonce. */
  lemma SentNoncesDistinct(next: nat, sends: seq<Outgoing>)
    ensures DistinctNonces(Returned(next, sends))
  {
    hide PacketNonce, Returned;
    var uses := Returned(next, sends);
    forall i, j | 0 <= i < j < |uses| && uses[i].iv == uses[j].iv
      ensures PacketNonce(uses[i].iv, uses[i].number) != PacketNonce(uses[j].iv, uses[j].number)
    {
      ReturnedAbove(next, sends, i);
      ReturnedAbove(next, sends, j);
      ReturnedIncrease(next, sends, i, j);
      NoncesDiffer(uses[i].iv, uses[i].number, uses[j].number);
    }
  }

  /** Every payload but the last is long enough to sample under the number it
      would get, as long as numbers last. */
  ghost predicate LongEnough(next: nat, sends: seq<Outgoing>) {
    forall i :: 0 <= i < |sends| - 1 && next + i < MAX_PACKET_NUMBER ==> Samplable(next + i, sends[i].payload)
  }

  lemma LongEnoughCons(next: nat, sends: seq<Outgoing>)
    requires |sends| > 1 && next < MAX_PACKET_NUMBER
    ensures LongEnough(next, sends) <==> Samplable(next, sends[0].payload) && LongEnough(next + 1, sends[1..])
  {
    hide Samplable;
    if Samplable(next, sends[0].payload) && LongEnough(next + 1, sends[1..]) {
      forall i | 0 <= i < |sends| - 1 && next + i < MAX_PACKET_NUMBER ensures Samplable(next + i, sends[i].payload) {
        if i > 0 { assert sends[1..][i - 1] == sends[i] && Samplable(next + 1 + (i - 1), sends[1..][i - 1].payload); }
      }
    }
    if LongEnough(next, sends) {
      assert Samplable(next + 0, sends[0].payload);
      forall i | 0 <= i < |sends[1..]| - 1 && next + 1 + i < MAX_PACKET_NUMBER
        ensures Samplable(next + 1 + i, sends[1..][i].payload)
      {
        assert Samplable(next + (i + 1), sends[i + 1].payload);
      }
    }
  }

  /** All sends are under keys that tag, with one IV. */
  ghost predicate OneIv(iv: Iv, sends: seq<Outgoing>) {
    forall o :: o in sends ==> o.keys.iv == iv && Tags(o.keys)
  }

  lemma {:induction false} SealedAbove(next: nat, sends: seq<Outgoing>, i: nat)
    requires i < |Sealings(next, sends)|
    ensures next <= Sealings(next, sends)[i].number < MAX_PACKET_NUMBER
    decreases |sends|
  {
    hide SendOne;
    SendAdvances(next, sends[0]);
    if i > 0 { SealedAbove(SendOne(next, sends[0]).next, sends[1..], i - 1); }
  }

  lemma SendSucceeds(next: nat, o: Outgoing)
    requires next < MAX_PACKET_NUMBER && Tags(o.keys)
    ensures SendOne(next, o).next == if Samplable(next, o.payload) then next + 1 else next
  {
    hide EncryptOneRtt, Samplable;
    EncryptsIff(o.keys, o.connection, next, o.payload);
  }

  /** Over every run of sends under one IV, the nonces of all sealings are
      different if and only if every payload but the last is long enough to
      sample: a refused send has already sealed, and leaves its number to the next. */
  lemma {:induction false} SealedNoncesDistinctIff(iv: Iv, next: nat, sends: seq<Outgoing>)
    requires OneIv(iv, sends)
    ensures DistinctNonces(Sealings(next, sends)) <==> LongEnough(next, sends)
    decreases |sends|
  {
    hide PacketNonce, SendOne, Samplable, Tags;
    if |sends| > 1 && next < MAX_PACKET_NUMBER {
      var o, rest := sends[0], sends[1..];
      assert o in sends && forall x :: x in rest ==> x in sends;
      SendSucceeds(next, o);
      LongEnoughCons(next, sends);
      var later := Sealings(SendOne(next, o).next, rest);
      if Samplable(next, o.payload) {
        SealedNoncesDistinctIff(iv, next + 1, rest);
        DistinctCons(Use(iv, next), later, rest);
      } else {
        var uses := Sealings(next, sends);
        assert rest[0] in sends;
        assert uses == [Use(iv, next)] + later && later[0] == Use(iv, next);
        assert uses[0] == uses[1];
      }
    }
  }

  lemma DistinctCons(use: Use, later: seq<Use>, sends: seq<Outgoing>)
    requires use.number < MAX_PACKET_NUMBER && later == Sealings(use.number + 1, sends)
    ensures DistinctNonces([use] + later) <==> DistinctNonces(later)
  {
    hide PacketNonce, Sealings;
    var uses := [use] + later;
    if DistinctNonces(later) {
      forall i, j | 0 <= i < j < |uses| && uses[i].iv == uses[j].iv
        ensures PacketNonce(uses[i].iv, uses[i].number) != PacketNonce(uses[j].iv, uses[j].number)
      {
        if i == 0 {
          SealedAbove(use.number + 1, sends, j - 1);
          NoncesDiffer(use.iv, use.number, later[j - 1].number);
        } else {
          assert uses[i] == later[i - 1] && uses[j] == later[j - 1];
        }
      }
    }
    if DistinctNonces(uses) {
      forall i, j | 0 <= i < j < |later| && later[i].iv == later[j].iv
        ensures PacketNonce(later[i].iv, later[i].number) != PacketNonce(later[j].iv, later[j].number)
      {
        assert later[i] == uses[i + 1] && later[j] == uses[j + 1];
      }
    }
  }

  /** An empty payload and then four bytes, from number 0: sealed twice under one nonce. */
  lemma NonceReused(keys: Keys, connection: Octets)
    requires Tags(keys)
    ensures var sends := [Outgoing(keys, connection, []), Outgoing(keys, connection, [1, 2, 3, 4])];
            !DistinctNonces(Sealings(0, sends))
  {
    hide Tags, Sealings, DistinctNonces;
    var sends := [Outgoing(keys, connection, []), Outgoing(keys, connection, [1, 2, 3, 4])];
    SealedNoncesDistinctIff(keys.iv, 0, sends);
    assert !Samplable(0 + 0, sends[0].payload);
  }
}
