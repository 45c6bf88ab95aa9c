/** The CRC of PNG chunks, section 3.4 of RFC 2083. */
module Checksums {
  import opened Folds
  import opened Bytes

  const POLYNOMIAL: bv32 := 0xedb8_8320

  function Mask(bit: bv32): bv32 {
    POLYNOMIAL & (0 - bit)
  }

  /** One shift of the register: the polynomial is added when a one falls out. */
  function Shift(crc: bv32): bv32 {
    (crc >> 1) ^ Mask(crc & 1)
  }

  function Xor(x: bv32, y: bv32): bv32 {
    x ^ y
  }

  function AddByte(crc: bv32, b: byte): bv32 {
    Iterate(Shift, Xor(crc, Register(b)), 8)
  }

  const ONES: bv32 := 0xffff_ffff

  /** The register starts at all ones and is complemented at the end. */
  function CrcOf(data: seq<byte>): bv32 {
    Xor(Fold(AddByte, ONES, data), ONES)
  }

  method ShiftOnce(crc: bv32) returns (shifted: bv32)
    ensures shifted == Shift(crc)
  {
    var mask := 0 - (crc & 1);
    shifted := (crc >> 1) ^ (POLYNOMIAL & mask);
  }

  method MixByte(crc: bv32, b: byte) returns (mixed: bv32)
    ensures mixed == AddByte(crc, b)
  {
    var start := Xor(crc, Register(b));
    mixed := start;
    for j := 0 to 8
      invariant mixed == Iterate(Shift, start, j)
    {
      mixed := ShiftOnce(mixed);
    }
  }

  method Crc(kind: seq<byte>, data: seq<byte>) returns (crc: bv32)
    ensures crc == CrcOf(kind + data)
  {
    var register := ONES;
    var all := kind + data;
    for i := 0 to |all|
      invariant register == Fold(AddByte, ONES, all[..i])
    {
      register := MixByte(register, all[i]);
      assert all[..i + 1][..i] == all[..i];
    }
    assert all[..|all|] == all;
    crc := Xor(register, ONES);
  }

  // ---- the table-driven CRC of section 15 of RFC 2083 -------------------------------------

  function TableEntry(n: bv32): bv32 {
    Iterate(Shift, n, 8)
  }

  function LowByte(x: bv32): bv32 {
    x & 0xff
  }

  function HighBits(x: bv32): bv32 {
    x & 0xffff_ff00
  }

  function MoveByte(x: bv32): bv32 {
    x >> 8
  }

  /** One table lookup for a byte. */
  function TableByte(crc: bv32, b: byte): bv32 {
    Xor(TableEntry(LowByte(Xor(crc, Register(b)))), MoveByte(crc))
  }

  lemma LowBitOfXor(x: bv32, y: bv32)
    ensures (x ^ y) & 1 == (x & 1) ^ (y & 1)
    ensures x & 1 == 0 || x & 1 == 1
  {
  }

  lemma MoveOfXor(x: bv32, y: bv32)
    ensures (x ^ y) >> 1 == (x >> 1) ^ (y >> 1)
  {
  }

  lemma MaskOfXor(a: bv32, b: bv32)
    requires (a == 0 || a == 1) && (b == 0 || b == 1)
    ensures Mask(a ^ b) == Mask(a) ^ Mask(b)
  {
  }

  lemma XorRearranges(p: bv32, q: bv32, r: bv32, s: bv32)
    ensures (p ^ q) ^ (r ^ s) == (p ^ r) ^ (q ^ s)
  {
  }

  lemma ShiftIsLinear(x: bv32, y: bv32)
    ensures Shift(x ^ y) == Shift(x) ^ Shift(y)
  {
    LowBitOfXor(x, y);
    LowBitOfXor(y, x);
    MoveOfXor(x, y);
    MaskOfXor(x & 1, y & 1);
    XorRearranges(x >> 1, y >> 1, Mask(x & 1), Mask(y & 1));
  }

  lemma LinearStepsDistribute(f: bv32 -> bv32)
    requires forall x, y :: f(x ^ y) == f(x) ^ f(y)
    ensures forall x, y :: f(Xor(x, y)) == Xor(f(x), f(y))
  {
  }

  lemma ShiftDistributes()
    ensures forall x, y :: Shift(Xor(x, y)) == Xor(Shift(x), Shift(y))
  {
    forall x, y ensures Shift(x ^ y) == Shift(x) ^ Shift(y) {
      ShiftIsLinear(x, y);
    }
    LinearStepsDistribute(Shift);
  }

  lemma XorNothing(x: bv32)
    ensures x ^ 0 == x && 0 ^ x == x
  {
  }

  lemma EvenShiftMoves(x: bv32)
    requires x & 1 == 0
    ensures Shift(x) == x >> 1
  {
    assert Mask(0) == 0;
    XorNothing(x >> 1);
  }

  lemma EightEvenBits(x: bv32)
    requires x & 0xff == 0
    ensures x & 1 == 0 && (x >> 1) & 1 == 0 && (x >> 2) & 1 == 0 && (x >> 3) & 1 == 0
    ensures (x >> 4) & 1 == 0 && (x >> 5) & 1 == 0 && (x >> 6) & 1 == 0 && (x >> 7) & 1 == 0
  {
  }

  lemma MovesAddUp(x: bv32)
    ensures (x >> 1) >> 1 == x >> 2 && (x >> 2) >> 1 == x >> 3 && (x >> 3) >> 1 == x >> 4
    ensures (x >> 4) >> 1 == x >> 5 && (x >> 5) >> 1 == x >> 6 && (x >> 6) >> 1 == x >> 7 && (x >> 7) >> 1 == x >> 8
  {
  }

  /** Any step that only moves even registers moves a clear low byte out in eight steps. */
  lemma EvenStepsMove(f: bv32 -> bv32, x: bv32)
    requires forall r: bv32 :: r & 1 == 0 ==> f(r) == r >> 1
    requires x & 0xff == 0
    ensures Iterate(f, x, 8) == x >> 8
  {
    EightEvenBits(x);
    MovesAddUp(x);
    IterateEight(f, x);
  }

  lemma ClearLowByte(x: bv32)
    ensures HighBits(x) & 0xff == 0 && HighBits(x) >> 8 == MoveByte(x)
  {
  }

  /** Eight shifts of a register whose low byte is clear only move it. */
  lemma HighBitsOnlyMove(x: bv32)
    ensures Iterate(Shift, HighBits(x), 8) == MoveByte(x)
  {
    forall r: bv32 | r & 1 == 0 ensures Shift(r) == r >> 1 {
      EvenShiftMoves(r);
    }
    ClearLowByte(x);
    EvenStepsMove(Shift, HighBits(x));
  }

  lemma SplitLowByte(x: bv32)
    ensures Xor(LowByte(x), HighBits(x)) == x
  {
  }

  lemma LowRegisterMovesOut(crc: bv32, low: bv32)
    requires low >> 8 == 0
    ensures (crc ^ low) >> 8 == crc >> 8
  {
  }

  lemma RegisterMovesOut(crc: bv32, b: byte)
    ensures MoveByte(Xor(crc, Register(b))) == MoveByte(crc)
  {
    RegisterIsLow(b);
    LowRegisterMovesOut(crc, Register(b));
  }

  lemma TableByteIsAddByte(crc: bv32, b: byte)
    ensures TableByte(crc, b) == AddByte(crc, b)
  {
    var x := Xor(crc, Register(b));
    SplitLowByte(x);
    ShiftDistributes();
    IterateDistributes(Shift, Xor, LowByte(x), HighBits(x), 8);
    HighBitsOnlyMove(x);
    RegisterMovesOut(crc, b);
  }

  /** The bit-by-bit CRC is the table-driven CRC. */
  lemma CrcMatchesTable(crc: bv32, data: seq<byte>)
    ensures Fold(AddByte, crc, data) == Fold(TableByte, crc, data)
  {
    forall r, b ensures AddByte(r, b) == TableByte(r, b) {
      TableByteIsAddByte(r, b);
    }
    SameSteps(AddByte, TableByte, crc, data);
  }

  // ---- the CRC loses nothing ---------------------------------------------------------------

  lemma TopOfXor(x: bv32, y: bv32)
    ensures (x ^ y) >> 31 == (x >> 31) ^ (y >> 31)
  {
  }

  lemma TopOfMove(x: bv32)
    ensures (x >> 1) >> 31 == 0
  {
  }

  lemma TopOfMask(bit: bv32)
    requires bit == 0 || bit == 1
    ensures Mask(bit) >> 31 == bit
  {
  }

  lemma Recompose(x: bv32)
    ensures x == ((x >> 1) << 1) | (x & 1)
  {
  }

  lemma XorCancels(x: bv32, y: bv32, z: bv32)
    ensures Xor(x, z) == Xor(y, z) <==> x == y
    ensures Xor(z, x) == Xor(z, y) <==> x == y
  {
  }

  /** The bit that falls out comes back at the top. */
  lemma TopOfShift(x: bv32)
    ensures Shift(x) >> 31 == x & 1
  {
    LowBitOfXor(x, x);
    TopOfXor(x >> 1, Mask(x & 1));
    TopOfMove(x);
    TopOfMask(x & 1);
    XorNothing(x & 1);
  }

  lemma ShiftIsInjective(x: bv32, y: bv32)
    ensures Shift(x) == Shift(y) ==> x == y
  {
    if Shift(x) == Shift(y) {
      TopOfShift(x);
      TopOfShift(y);
      XorCancels(x >> 1, y >> 1, Mask(x & 1));
      Recompose(x);
      Recompose(y);
    }
  }

  lemma EightShiftsAreInjective(x: bv32, y: bv32)
    requires Iterate(Shift, x, 8) == Iterate(Shift, y, 8)
    ensures x == y
  {
    forall a, b ensures Shift(a) == Shift(b) ==> a == b {
      ShiftIsInjective(a, b);
    }
    IterateIsInjective(Shift, x, y, 8);
  }

  lemma AddByteIsInjective(r: bv32, s: bv32, b: byte, c: byte)
    ensures AddByte(r, b) == AddByte(s, b) ==> r == s
    ensures AddByte(r, b) == AddByte(r, c) ==> b == c
  {
    if AddByte(r, b) == AddByte(s, b) {
      EightShiftsAreInjective(Xor(r, Register(b)), Xor(s, Register(b)));
      XorCancels(r, s, Register(b));
    }
    if AddByte(r, b) == AddByte(r, c) {
      EightShiftsAreInjective(Xor(r, Register(b)), Xor(r, Register(c)));
      XorCancels(Register(b), Register(c), r);
      RegistersDiffer(b, c);
    }
  }

  /** Changing one byte of a message always changes its CRC. */
  lemma OneChangedByteIsDetected(before: seq<byte>, x: byte, y: byte, after: seq<byte>)
    ensures CrcOf(before + [x] + after) == CrcOf(before + [y] + after) <==> x == y
  {
    forall r, s, b ensures AddByte(r, b) == AddByte(s, b) ==> r == s {
      AddByteIsInjective(r, s, b, b);
    }
    forall r, b, c ensures AddByte(r, b) == AddByte(r, c) ==> b == c {
      AddByteIsInjective(r, r, b, c);
    }
    if CrcOf(before + [x] + after) == CrcOf(before + [y] + after) {
      XorCancels(Fold(AddByte, ONES, before + [x] + after), Fold(AddByte, ONES, before + [y] + after), ONES);
      ChangeShows(AddByte, ONES, before, x, y, after);
    }
  }
}
