/** Bytes as numbers, and as the low bits of a 32-bit register. */
module Bytes {

  type byte = x: int | 0 <= x < 256

  function Bits(p0: bool, p1: bool, p2: bool, p3: bool, p4: bool, p5: bool, p6: bool, p7: bool): bv32 {
    (if p0 then 0x01 else 0) | (if p1 then 0x02 else 0) | (if p2 then 0x04 else 0) | (if p3 then 0x08 else 0)
    | (if p4 then 0x10 else 0) | (if p5 then 0x20 else 0) | (if p6 then 0x40 else 0) | (if p7 then 0x80 else 0)
  }

  predicate IsOdd(n: int) {
    n % 2 == 1
  }

  /** A byte widened to 32 bits. */
  function Register(b: byte): bv32 {
    var h1 := b / 2;
    var h2 := h1 / 2;
    var h3 := h2 / 2;
    var h4 := h3 / 2;
    var h5 := h4 / 2;
    var h6 := h5 / 2;
    var h7 := h6 / 2;
    Bits(IsOdd(b), IsOdd(h1), IsOdd(h2), IsOdd(h3), IsOdd(h4), IsOdd(h5), IsOdd(h6), IsOdd(h7))
  }

  lemma BitsAreLow(p0: bool, p1: bool, p2: bool, p3: bool, p4: bool, p5: bool, p6: bool, p7: bool)
    ensures Bits(p0, p1, p2, p3, p4, p5, p6, p7) >> 8 == 0
  {
  }

  lemma RegisterIsLow(b: byte)
    ensures Register(b) >> 8 == 0
  {
    var h1, h2, h3, h4 := b / 2, b / 2 / 2, b / 2 / 2 / 2, b / 2 / 2 / 2 / 2;
    BitsAreLow(IsOdd(b), IsOdd(h1), IsOdd(h2), IsOdd(h3),
               IsOdd(h4), IsOdd(h4 / 2), IsOdd(h4 / 2 / 2), IsOdd(h4 / 2 / 2 / 2));
  }

  lemma SameBits(
    p0: bool, p1: bool, p2: bool, p3: bool, p4: bool, p5: bool, p6: bool, p7: bool,
    q0: bool, q1: bool, q2: bool, q3: bool, q4: bool, q5: bool, q6: bool, q7: bool)
    requires Bits(p0, p1, p2, p3, p4, p5, p6, p7) == Bits(q0, q1, q2, q3, q4, q5, q6, q7)
    ensures p0 == q0 && p1 == q1 && p2 == q2 && p3 == q3 && p4 == q4 && p5 == q5 && p6 == q6 && p7 == q7
  {
    BitsAreSeparate(p0, p1, p2, p3, p4, p5, p6, p7);
    BitsAreSeparate(q0, q1, q2, q3, q4, q5, q6, q7);
  }

  lemma BitsAreSeparate(p0: bool, p1: bool, p2: bool, p3: bool, p4: bool, p5: bool, p6: bool, p7: bool)
    ensures var v := Bits(p0, p1, p2, p3, p4, p5, p6, p7);
      && (p0 <==> v & 0x01 != 0) && (p1 <==> v & 0x02 != 0) && (p2 <==> v & 0x04 != 0) && (p3 <==> v & 0x08 != 0)
      && (p4 <==> v & 0x10 != 0) && (p5 <==> v & 0x20 != 0) && (p6 <==> v & 0x40 != 0) && (p7 <==> v & 0x80 != 0)
  {
  }

  lemma SameHalf(b: int, c: int)
    requires b / 2 == c / 2 && IsOdd(b) == IsOdd(c)
    ensures b == c
  {
  }

  predicate SameParities(b: byte, c: byte) {
    && IsOdd(b) == IsOdd(c)
    && IsOdd(b / 2) == IsOdd(c / 2)
    && IsOdd(b / 2 / 2) == IsOdd(c / 2 / 2)
    && IsOdd(b / 2 / 2 / 2) == IsOdd(c / 2 / 2 / 2)
    && IsOdd(b / 2 / 2 / 2 / 2) == IsOdd(c / 2 / 2 / 2 / 2)
    && IsOdd(b / 2 / 2 / 2 / 2 / 2) == IsOdd(c / 2 / 2 / 2 / 2 / 2)
    && IsOdd(b / 2 / 2 / 2 / 2 / 2 / 2) == IsOdd(c / 2 / 2 / 2 / 2 / 2 / 2)
    && IsOdd(b / 2 / 2 / 2 / 2 / 2 / 2 / 2) == IsOdd(c / 2 / 2 / 2 / 2 / 2 / 2 / 2)
  }

  lemma SameRegisterSameParities(b: byte, c: byte)
    requires Register(b) == Register(c)
    ensures SameParities(b, c)
  {
    var b4, c4 := b / 2 / 2 / 2 / 2, c / 2 / 2 / 2 / 2;
    SameBits(IsOdd(b), IsOdd(b / 2), IsOdd(b / 2 / 2), IsOdd(b / 2 / 2 / 2),
             IsOdd(b4), IsOdd(b4 / 2), IsOdd(b4 / 2 / 2), IsOdd(b4 / 2 / 2 / 2),
             IsOdd(c), IsOdd(c / 2), IsOdd(c / 2 / 2), IsOdd(c / 2 / 2 / 2),
             IsOdd(c4), IsOdd(c4 / 2), IsOdd(c4 / 2 / 2), IsOdd(c4 / 2 / 2 / 2));
  }

  lemma SameParitiesSameByte(b: byte, c: byte)
    requires SameParities(b, c)
    ensures b == c
  {
    var b4, c4 := b / 2 / 2 / 2 / 2, c / 2 / 2 / 2 / 2;
    assert b4 / 2 / 2 / 2 / 2 == 0 && c4 / 2 / 2 / 2 / 2 == 0;
    SameHalf(b4 / 2 / 2 / 2, c4 / 2 / 2 / 2);
    SameHalf(b4 / 2 / 2, c4 / 2 / 2);
    SameHalf(b4 / 2, c4 / 2);
    SameHalf(b4, c4);
    SameHalf(b / 2 / 2 / 2, c / 2 / 2 / 2);
    SameHalf(b / 2 / 2, c / 2 / 2);
    SameHalf(b / 2, c / 2);
    SameHalf(b, c);
  }

  /** Different bytes have different registers. */
  lemma RegistersDiffer(b: byte, c: byte)
    requires Register(b) == Register(c)
    ensures b == c
  {
    SameRegisterSameParities(b, c);
    SameParitiesSameByte(b, c);
  }

  // ---- registers and numbers as bytes --------------------------------------------------

  function Bit(p: bool): int {
    if p then 1 else 0
  }

  function Weighted(p0: bool, p1: bool, p2: bool, p3: bool, p4: bool, p5: bool, p6: bool, p7: bool): byte {
    Bit(p0) + 2 * (Bit(p1) + 2 * (Bit(p2) + 2 * (Bit(p3)
      + 2 * (Bit(p4) + 2 * (Bit(p5) + 2 * (Bit(p6) + 2 * Bit(p7)))))))
  }

  /** The low byte of a register, as a number. */
  function LowByteOf(v: bv32): byte {
    Weighted(v & 0x01 != 0, v & 0x02 != 0, v & 0x04 != 0, v & 0x08 != 0,
             v & 0x10 != 0, v & 0x20 != 0, v & 0x40 != 0, v & 0x80 != 0)
  }

  lemma HalfOfSum(p: bool, n: int)
    ensures (Bit(p) + 2 * n) / 2 == n && IsOdd(Bit(p) + 2 * n) == p
  {
  }

  lemma ParitiesOfWeighted(p0: bool, p1: bool, p2: bool, p3: bool, p4: bool, p5: bool, p6: bool, p7: bool)
    ensures var n := Weighted(p0, p1, p2, p3, p4, p5, p6, p7);
      && IsOdd(n) == p0 && IsOdd(n / 2) == p1 && IsOdd(n / 2 / 2) == p2 && IsOdd(n / 2 / 2 / 2) == p3
      && IsOdd(n / 2 / 2 / 2 / 2) == p4 && IsOdd(n / 2 / 2 / 2 / 2 / 2) == p5
      && IsOdd(n / 2 / 2 / 2 / 2 / 2 / 2) == p6 && IsOdd(n / 2 / 2 / 2 / 2 / 2 / 2 / 2) == p7
  {
    var h7 := Bit(p7) + 2 * 0;
    var h6 := Bit(p6) + 2 * h7;
    var h5 := Bit(p5) + 2 * h6;
    var h4 := Bit(p4) + 2 * h5;
    var h3 := Bit(p3) + 2 * h4;
    var h2 := Bit(p2) + 2 * h3;
    var h1 := Bit(p1) + 2 * h2;
    HalfOfSum(p0, h1);
    HalfOfSum(p1, h2);
    HalfOfSum(p2, h3);
    HalfOfSum(p3, h4);
    HalfOfSum(p4, h5);
    HalfOfSum(p5, h6);
    HalfOfSum(p6, h7);
    HalfOfSum(p7, 0);
  }

  lemma RegisterOfWeighted(p0: bool, p1: bool, p2: bool, p3: bool, p4: bool, p5: bool, p6: bool, p7: bool)
    ensures Register(Weighted(p0, p1, p2, p3, p4, p5, p6, p7)) == Bits(p0, p1, p2, p3, p4, p5, p6, p7)
  {
    ParitiesOfWeighted(p0, p1, p2, p3, p4, p5, p6, p7);
  }

  lemma BitsOfRegister(v: bv32)
    ensures Bits(v & 0x01 != 0, v & 0x02 != 0, v & 0x04 != 0, v & 0x08 != 0,
                 v & 0x10 != 0, v & 0x20 != 0, v & 0x40 != 0, v & 0x80 != 0) == v & 0xff
  {
  }

  /** The low byte of a register, widened again, is the register without its other bytes. */
  lemma LowByteIsExact(v: bv32)
    ensures Register(LowByteOf(v)) == v & 0xff
  {
    RegisterOfWeighted(v & 0x01 != 0, v & 0x02 != 0, v & 0x04 != 0, v & 0x08 != 0,
                       v & 0x10 != 0, v & 0x20 != 0, v & 0x40 != 0, v & 0x80 != 0);
    BitsOfRegister(v);
  }

  /** A register as four bytes, most significant first. */
  function RegisterBytes(v: bv32): (bytes: seq<byte>)
    ensures |bytes| == 4
  {
    [LowByteOf(v >> 24), LowByteOf(v >> 16), LowByteOf(v >> 8), LowByteOf(v)]
  }

  lemma FourBytes(v: bv32)
    ensures v == (((v >> 24) & 0xff) << 24) | (((v >> 16) & 0xff) << 16) | (((v >> 8) & 0xff) << 8) | (v & 0xff)
  {
  }

  /** Different registers have different bytes. */
  lemma RegisterBytesDiffer(v: bv32, w: bv32)
    requires RegisterBytes(v) == RegisterBytes(w)
    ensures v == w
  {
    assert RegisterBytes(v)[0] == RegisterBytes(w)[0] && RegisterBytes(v)[1] == RegisterBytes(w)[1];
    assert RegisterBytes(v)[2] == RegisterBytes(w)[2] && RegisterBytes(v)[3] == RegisterBytes(w)[3];
    LowByteIsExact(v >> 24);
    LowByteIsExact(w >> 24);
    LowByteIsExact(v >> 16);
    LowByteIsExact(w >> 16);
    LowByteIsExact(v >> 8);
    LowByteIsExact(w >> 8);
    LowByteIsExact(v);
    LowByteIsExact(w);
    FourBytes(v);
    FourBytes(w);
  }

  const U32_MAX: int := 0xffff_ffff

  /** The low bytes of a number, most significant first. */
  function BigEndian(n: nat, count: nat): (bytes: seq<byte>)
    ensures |bytes| == count
  {
    if count == 0 then [] else BigEndian(n / 0x100, count - 1) + [n % 0x100]
  }

  function FromBigEndian(bytes: seq<byte>): nat {
    if bytes == [] then 0
    else 0x100 * FromBigEndian(bytes[..|bytes| - 1]) + bytes[|bytes| - 1]
  }

  function Power256(count: nat): nat {
    if count == 0 then 1 else 0x100 * Power256(count - 1)
  }

  lemma {:induction false} BigEndianRoundTrip(n: nat, count: nat)
    requires n < Power256(count)
    ensures FromBigEndian(BigEndian(n, count)) == n
  {
    if count > 0 {
      BigEndianRoundTrip(n / 0x100, count - 1);
      assert BigEndian(n, count)[..count - 1] == BigEndian(n / 0x100, count - 1);
    }
  }

  function Be32(n: nat): (bytes: seq<byte>)
    ensures |bytes| == 4
  {
    BigEndian(n, 4)
  }

  lemma Be32RoundTrip(n: nat)
    requires n <= U32_MAX
    ensures FromBigEndian(Be32(n)) == n
  {
    assert Power256(2) == 0x1_0000;
    assert Power256(4) == 0x100 * (0x100 * Power256(2));
    BigEndianRoundTrip(n, 4);
  }

  function LittleEndian(low: int, high: int): int {
    low + 0x100 * high
  }

  /** A number as two bytes, least significant first. */
  function Le16(n: int): (bytes: seq<byte>)
    requires 0 <= n <= 0xffff
    ensures |bytes| == 2 && LittleEndian(bytes[0], bytes[1]) == n
  {
    [n % 0x100, n / 0x100]
  }
}
