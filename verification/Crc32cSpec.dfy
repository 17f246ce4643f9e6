/**
 CRC-32C as a shift register fed one message bit at a time (polynomial 0x11EDC6F41, section 12.1 of
 RFC 3720, in reflected form), and the algebra of that register: it is GF(2)-linear and reversible.

 Words are combined through `Xor` rather than `^` so that the proofs above this level can reason
 about exclusive-or by its laws, without its bits.
 */
module Crc32cSpec {

  // --- Words ---------------------------------------------------------------------------------------

  function Xor(a: bv32, b: bv32): bv32 { a ^ b }

  function Half(a: bv32): bv32 { a >> 1 }

  predicate Odd(a: bv32) { a & 1 == 1 }

  lemma XorComm(a: bv32, b: bv32)
    ensures Xor(a, b) == Xor(b, a)
  {
  }

  lemma XorAssoc(a: bv32, b: bv32, c: bv32)
    ensures Xor(Xor(a, b), c) == Xor(a, Xor(b, c))
  {
  }

  lemma XorZero(a: bv32)
    ensures Xor(a, 0) == a && Xor(0, a) == a && Xor(a, a) == 0
  {
  }

  lemma XorCancel(a: bv32, b: bv32)
    ensures Xor(Xor(a, b), b) == a
  {
    hide Xor;
    XorAssoc(a, b, b);
    XorZero(a);
    XorZero(b);
  }

  lemma XorSwapLast(a: bv32, b: bv32, c: bv32)
    ensures Xor(Xor(a, b), c) == Xor(Xor(a, c), b)
  {
    hide Xor;
    XorAssoc(a, b, c);
    XorComm(b, c);
    XorAssoc(a, c, b);
  }

  lemma XorSwapInner(a: bv32, b: bv32, c: bv32, d: bv32)
    ensures Xor(Xor(a, b), Xor(c, d)) == Xor(Xor(a, c), Xor(b, d))
  {
    hide Xor;
    XorAssoc(Xor(a, b), c, d);
    XorSwapLast(a, b, c);
    XorAssoc(Xor(a, c), b, d);
  }

  lemma HalfXor(a: bv32, b: bv32)
    ensures Half(Xor(a, b)) == Xor(Half(a), Half(b))
  {
    assert (a ^ b) >> 1 == (a >> 1) ^ (b >> 1);
  }

  lemma OddXor(a: bv32, b: bv32)
    ensures Odd(Xor(a, b)) <==> Odd(a) != Odd(b)
  {
    assert (a ^ b) & 1 == (a & 1) ^ (b & 1);
  }

  // --- The definition ------------------------------------------------------------------------------

  /** The reflected polynomial; it is also entry 128 of the byte table. */
  const POLY: bv32 := 0x82f63b78

  /** Pre- and post-conditioning mask. */
  const XOR_MASK: bv32 := 0xffff_ffff

  /** Shift one message bit into the register: divide by x, subtract POLY when a one falls out. */
  function FeedBit(w: bv32, bit: bool): bv32 {
    if Odd(w) != bit then Xor(Half(w), POLY) else Half(w)
  }

  /** Feed the `count` low bits of `bits`, least significant bit first. */
  function FeedBits(w: bv32, bits: bv32, count: nat): bv32
    decreases count
  {
    if count == 0 then w else FeedBits(FeedBit(w, Odd(bits)), Half(bits), count - 1)
  }

  function Feed(w: bv32, data: seq<bv8>): bv32
    decreases |data|
  {
    if data == [] then w else Feed(FeedBits(w, data[0] as bv32, 8), data[1..])
  }

  /** The CRC of a string whose CRC so far is `crc`, extended by `data`. */
  function ExtendBitwise(crc: bv32, data: seq<bv8>): bv32 {
    Xor(Feed(Xor(crc, XOR_MASK), data), XOR_MASK)
  }

  // --- The zero-feed operator ----------------------------------------------------------------------

  /** Feed one zero bit. */
  function Shift(w: bv32): bv32 {
    FeedBit(w, false)
  }

  /** Feed n zero bits: multiplication by x^n modulo the polynomial. */
  function Zeros(n: nat, w: bv32): bv32
    decreases n
  {
    if n == 0 then w else Zeros(n - 1, Shift(w))
  }

  lemma FeedBitLinear(a: bv32, b: bv32, bit: bool)
    ensures FeedBit(Xor(a, b), bit) == Xor(FeedBit(a, bit != Odd(b)), Half(b))
  {
    hide Xor, Half, Odd;
    HalfXor(a, b);
    OddXor(a, b);
    XorSwapLast(Half(a), Half(b), POLY);
  }

  lemma ShiftLinear(a: bv32, b: bv32)
    ensures Shift(Xor(a, b)) == Xor(Shift(a), Shift(b))
  {
    hide Xor, Half, Odd;
    HalfXor(a, b);
    OddXor(a, b);
    XorSwapLast(Half(a), Half(b), POLY);
    XorAssoc(Half(a), Half(b), POLY);
    XorSwapInner(Half(a), POLY, Half(b), POLY);
    XorZero(POLY);
    XorZero(Xor(Half(a), Half(b)));
  }

  lemma {:induction false} ZerosLinear(n: nat, a: bv32, b: bv32)
    ensures Zeros(n, Xor(a, b)) == Xor(Zeros(n, a), Zeros(n, b))
    decreases n
  {
    hide Xor, Shift;
    if n != 0 {
      ShiftLinear(a, b);
      ZerosLinear(n - 1, Shift(a), Shift(b));
    }
  }

  lemma {:induction false} ZerosOfZero(n: nat)
    ensures Zeros(n, 0) == 0
    decreases n
  {
    if n != 0 {
      ZerosOfZero(n - 1);
    }
  }

  lemma {:induction false} ZerosAdd(m: nat, n: nat, w: bv32)
    ensures Zeros(m + n, w) == Zeros(n, Zeros(m, w))
    decreases m
  {
    hide Shift;
    if m != 0 {
      ZerosAdd(m - 1, n, Shift(w));
      assert m + n - 1 == m - 1 + n;
    }
  }

  /** The polynomial has a constant term, so no information is lost by a shift. */
  lemma ShiftInjective(a: bv32, b: bv32)
    requires Shift(a) == Shift(b)
    ensures a == b
  {
  }

  lemma {:induction false} ZerosInjective(n: nat, a: bv32, b: bv32)
    requires Zeros(n, a) == Zeros(n, b)
    ensures a == b
    decreases n
  {
    hide Shift;
    if n != 0 {
      ZerosInjective(n - 1, Shift(a), Shift(b));
      ShiftInjective(a, b);
    }
  }

  // --- Feeding bytes and words through the zero-feed operator ---------------------------------------

  /** What is left of a word once n bits have been taken from its low end. */
  function Drop(bits: bv32, n: nat): bv32
    decreases n
  {
    if n == 0 then bits else Drop(Half(bits), n - 1)
  }

  /** Xoring n message bits in at once and then shifting n times is feeding them one at a time. */
  lemma {:induction false} FeedBitsIsZeros(w: bv32, bits: bv32, n: nat)
    ensures Zeros(n, Xor(w, bits)) == Xor(FeedBits(w, bits, n), Drop(bits, n))
    decreases n
  {
    hide Xor, Half, Odd, FeedBit;
    if n != 0 {
      FeedBitLinear(w, bits, false);
      FeedBitsIsZeros(FeedBit(w, Odd(bits)), Half(bits), n - 1);
    }
  }

  lemma FeedByteIsZeros(w: bv32, b: bv8)
    ensures FeedBits(w, b as bv32, 8) == Zeros(8, Xor(w, b as bv32))
  {
    assert Drop(b as bv32, 8) == 0 by {
      DropByte(b);
    }
    hide *;
    FeedBitsIsZeros(w, b as bv32, 8);
    XorZero(FeedBits(w, b as bv32, 8));
  }

  lemma DropByte(b: bv8)
    ensures Drop(b as bv32, 8) == 0
  {
    var w := b as bv32;
    HalfIsShift(w);
    HalfIsShift(w >> 2);
    HalfIsShift(w >> 4);
    HalfIsShift(w >> 6);
    ByteShiftedOut(b);
    hide Half;
    assert Drop(w, 8) == Drop(w >> 2, 6) == Drop(w >> 4, 4) == Drop(w >> 6, 2);
  }

  lemma HalfIsShift(w: bv32)
    ensures Half(Half(w)) == w >> 2
  {
  }

  lemma ByteShiftedOut(b: bv8)
    ensures ((((b as bv32) >> 2) >> 2) >> 2) >> 2 == 0
  {
  }

  // Moving a word up and then shifting it the same number of times gives it back.

  function Double(w: bv32): bv32 { w << 1 }

  predicate Fits(w: bv32) { w < 0x8000_0000 }

  function Lift(w: bv32, n: nat): bv32 {
    if n == 0 then w else Double(Lift(w, n - 1))
  }

  lemma ShiftOfDouble(w: bv32)
    requires Fits(w)
    ensures Shift(Double(w)) == w
  {
  }

  lemma {:induction false} ZerosOfLift(w: bv32, n: nat)
    requires forall k: nat :: k < n ==> Fits(Lift(w, k))
    ensures Zeros(n, Lift(w, n)) == w
  {
    hide Double, Fits, Shift;
    if n != 0 {
      ShiftOfDouble(Lift(w, n - 1));
      ZerosOfLift(w, n - 1);
    }
  }

  function Quad(w: bv32): bv32 { w << 2 }

  function Hex(w: bv32): bv32 { w << 4 }

  lemma DoubleDouble(w: bv32)
    ensures Double(Double(w)) == Quad(w)
  {
  }

  lemma QuadQuad(w: bv32)
    ensures Quad(Quad(w)) == Hex(w)
  {
  }

  lemma HexHex(w: bv32)
    ensures Hex(Hex(w)) == w << 8
  {
  }

  lemma LiftByte(w: bv32)
    ensures Lift(w, 0) == w && Lift(w, 2) == Quad(w) && Lift(w, 4) == Hex(w)
    ensures Lift(w, 6) == Quad(Hex(w)) && Lift(w, 8) == w << 8
  {
    HexHex(w);
    QuadQuad(w);
    QuadQuad(Hex(w));
    DoubleDouble(w);
    DoubleDouble(Quad(w));
    DoubleDouble(Hex(w));
    DoubleDouble(Quad(Hex(w)));
    hide Double, Quad, Hex;
    assert Lift(w, 0) == w;
    assert Lift(w, 2) == Double(Double(Lift(w, 0)));
    assert Lift(w, 4) == Double(Double(Lift(w, 2)));
    assert Lift(w, 6) == Double(Double(Lift(w, 4)));
    assert Lift(w, 8) == Double(Double(Lift(w, 6)));
  }

  lemma LaneFits(w: bv32)
    requires w < 0x100_0000
    ensures Fits(w) && Fits(Double(w)) && Fits(Quad(w)) && Fits(Double(Quad(w)))
    ensures Fits(Hex(w)) && Fits(Double(Hex(w))) && Fits(Quad(Hex(w))) && Fits(Double(Quad(Hex(w))))
  {
  }

  lemma ZerosOfLane(w: bv32)
    requires w < 0x100_0000
    ensures Zeros(8, w << 8) == w
  {
    LiftByte(w);
    LaneFits(w);
    hide Double, Quad, Hex, Fits;
    assert forall k: nat | k < 8 :: Fits(Lift(w, k)) by {
      assert Lift(w, 1) == Double(Lift(w, 0)) && Lift(w, 3) == Double(Lift(w, 2));
      assert Lift(w, 5) == Double(Lift(w, 4)) && Lift(w, 7) == Double(Lift(w, 6));
    }
    ZerosOfLift(w, 8);
  }

  lemma {:induction false} FeedConcat(w: bv32, a: seq<bv8>, b: seq<bv8>)
    ensures Feed(w, a + b) == Feed(Feed(w, a), b)
    decreases |a|
  {
    hide FeedBits;
    if a == [] {
      assert a + b == b;
    } else {
      assert (a + b)[1..] == a[1..] + b;
      FeedConcat(FeedBits(w, a[0] as bv32, 8), a[1..], b);
    }
  }
}
