/**
 The CRC sees every burst: two messages whose bits, in the order in which the register takes them, differ only
 within 32 consecutive places never have the same CRC, wherever in a byte the burst begins.
 */
module Crc32cBursts {
  import opened Crc32cSpec
  import opened Crc32cProperties

  // --- Messages as bits ------------------------------------------------------------------------------

  function FeedBools(w: bv32, bits: seq<bool>): bv32
    decreases |bits|
  {
    if bits == [] then w else FeedBools(FeedBit(w, bits[0]), bits[1..])
  }

  /** The low bits of a word, least significant first. */
  function BitsFrom(w: bv32, count: nat): (bits: seq<bool>)
    ensures |bits| == count
  {
    if count == 0 then [] else [Odd(w)] + BitsFrom(Half(w), count - 1)
  }

  function BitsOf(data: seq<bv8>): (bits: seq<bool>)
    ensures |bits| == 8 * |data|
  {
    if data == [] then [] else BitsFrom(data[0] as bv32, 8) + BitsOf(data[1..])
  }

  lemma {:induction false} FeedBitsIsBools(w: bv32, bits: bv32, count: nat)
    ensures FeedBits(w, bits, count) == FeedBools(w, BitsFrom(bits, count))
    decreases count
  {
    hide FeedBit, Odd, Half;
    if count != 0 {
      FeedBitsIsBools(FeedBit(w, Odd(bits)), Half(bits), count - 1);
      assert BitsFrom(bits, count)[1..] == BitsFrom(Half(bits), count - 1);
    }
  }

  lemma {:induction false} FeedBoolsConcat(w: bv32, a: seq<bool>, b: seq<bool>)
    ensures FeedBools(w, a + b) == FeedBools(FeedBools(w, a), b)
    decreases |a|
  {
    hide FeedBit;
    if a == [] {
      assert a + b == b;
    } else {
      assert (a + b)[1..] == a[1..] + b;
      FeedBoolsConcat(FeedBit(w, a[0]), a[1..], b);
    }
  }

  /** Feeding bytes is feeding their bits. */
  lemma {:induction false} FeedIsBools(w: bv32, data: seq<bv8>)
    ensures Feed(w, data) == FeedBools(w, BitsOf(data))
    decreases |data|
  {
    hide FeedBit, FeedBits, BitsFrom;
    if data != [] {
      FeedBitsIsBools(w, data[0] as bv32, 8);
      FeedBoolsConcat(w, BitsFrom(data[0] as bv32, 8), BitsOf(data[1..]));
      FeedIsBools(FeedBits(w, data[0] as bv32, 8), data[1..]);
    } else {
      assert FeedBools(w, []) == w;
    }
  }

  lemma {:induction false} EqualBits(a: bv32, b: bv32, count: nat)
    requires BitsFrom(a, count) == BitsFrom(b, count) && Drop(a, count) == Drop(b, count)
    ensures a == b
    decreases count
  {
    if count != 0 {
      assert BitsFrom(a, count)[0] == BitsFrom(b, count)[0];
      assert BitsFrom(a, count)[1..] == BitsFrom(Half(a), count - 1);
      assert BitsFrom(b, count)[1..] == BitsFrom(Half(b), count - 1);
      EqualBits(Half(a), Half(b), count - 1);
      OddAndHalf(a, b);
    }
  }

  lemma OddAndHalf(a: bv32, b: bv32)
    requires Odd(a) == Odd(b) && Half(a) == Half(b)
    ensures a == b
  {
  }

  lemma EqualBytes(a: bv8, b: bv8)
    requires BitsFrom(a as bv32, 8) == BitsFrom(b as bv32, 8)
    ensures a == b
  {
    DropByteBits(a);
    DropByteBits(b);
    EqualBits(a as bv32, b as bv32, 8);
    assert (a as bv32) as bv8 == a && (b as bv32) as bv8 == b;
  }

  lemma DropByteBits(b: bv8)
    ensures Drop(b as bv32, 8) == 0
  {
    var w := b as bv32;
    DropByte(b);
    hide Half;
    assert Drop(w, 8) == Drop(Half(Half(w)), 6) == Drop(Half(Half(Half(Half(w)))), 4);
  }

  lemma {:induction false} EqualMessages(a: seq<bv8>, b: seq<bv8>)
    requires |a| == |b| && BitsOf(a) == BitsOf(b)
    ensures a == b
    decreases |a|
  {
    hide BitsFrom;
    if a != [] {
      assert BitsOf(a)[..8] == BitsFrom(a[0] as bv32, 8) && BitsOf(b)[..8] == BitsFrom(b[0] as bv32, 8);
      assert BitsOf(a)[8..] == BitsOf(a[1..]) && BitsOf(b)[8..] == BitsOf(b[1..]);
      EqualBytes(a[0], b[0]);
      EqualMessages(a[1..], b[1..]);
      assert a == [a[0]] + a[1..] && b == [b[0]] + b[1..];
    }
  }

  // --- At most 32 bits as a word ---------------------------------------------------------------------

  function Bit(b: bool): bv32 {
    if b then 1 else 0
  }

  function Word(bits: seq<bool>): bv32 {
    if bits == [] then 0 else Xor(Bit(bits[0]), Double(Word(bits[1..])))
  }

  function Top(n: nat): bv32 {
    if n == 0 then 1 else Double(Top(n - 1))
  }

  predicate Under(w: bv32, top: bv32) {
    w < top
  }

  lemma TopSmall(n: nat)
    requires n <= 30
    ensures Top(n) <= 0x4000_0000
  {
    assert Top(0) == 0x1;
    assert Top(1) == 0x2;
    assert Top(2) == 0x4;
    assert Top(3) == 0x8;
    assert Top(4) == 0x10;
    assert Top(5) == 0x20;
    assert Top(6) == 0x40;
    assert Top(7) == 0x80;
    assert Top(8) == 0x100;
    assert Top(9) == 0x200;
    assert Top(10) == 0x400;
    assert Top(11) == 0x800;
    assert Top(12) == 0x1000;
    assert Top(13) == 0x2000;
    assert Top(14) == 0x4000;
    assert Top(15) == 0x8000;
    assert Top(16) == 0x10000;
    assert Top(17) == 0x20000;
    assert Top(18) == 0x40000;
    assert Top(19) == 0x80000;
    assert Top(20) == 0x100000;
    assert Top(21) == 0x200000;
    assert Top(22) == 0x400000;
    assert Top(23) == 0x800000;
    assert Top(24) == 0x1000000;
    assert Top(25) == 0x2000000;
    assert Top(26) == 0x4000000;
    assert Top(27) == 0x8000000;
    assert Top(28) == 0x10000000;
    assert Top(29) == 0x20000000;
    assert Top(30) == 0x40000000;
  }

  lemma UnderDouble(w: bv32, b: bool, top: bv32)
    requires Under(w, top) && top <= 0x4000_0000
    ensures Under(Xor(Bit(b), Double(w)), Double(top))
  {
  }

  lemma {:induction false} WordUnder(bits: seq<bool>)
    requires |bits| <= 31
    ensures Under(Word(bits), Top(|bits|))
  {
    if bits == [] {
      assert Under(0, 1);
    } else {
      WordUnder(bits[1..]);
      TopSmall(|bits| - 1);
      UnderDouble(Word(bits[1..]), bits[0], Top(|bits| - 1));
      hide Under, Xor, Bit, Double;
    }
  }

  lemma UnderFits(w: bv32, top: bv32)
    requires Under(w, Double(top)) && top <= 0x4000_0000
    ensures Fits(w)
  {
  }

  lemma WordFits(bits: seq<bool>)
    requires |bits| <= 31
    ensures Fits(Word(bits))
  {
    WordUnder(bits);
    if bits == [] {
      assert Fits(0);
    } else {
      TopSmall(|bits| - 1);
      UnderFits(Word(bits), Top(|bits| - 1));
    }
    hide Under, Fits, Word;
  }

  lemma LowBit(b: bool, w: bv32)
    requires Fits(w)
    ensures Odd(Xor(Bit(b), Double(w))) == b && Half(Xor(Bit(b), Double(w))) == w
  {
  }

  /** A word of at most 32 bits has just those bits. */
  lemma {:induction false} WordBits(bits: seq<bool>)
    requires |bits| <= 32
    ensures BitsFrom(Word(bits), |bits|) == bits && Drop(Word(bits), |bits|) == 0
    decreases |bits|
  {
    if bits == [] {
      assert Drop(0, 0) == 0;
    } else {
      WordFits(bits[1..]);
      LowBit(bits[0], Word(bits[1..]));
      WordBits(bits[1..]);
      hide Xor, Bit, Double, Odd, Half, Fits;
      assert bits == [bits[0]] + bits[1..];
    }
  }

  /** Feeding at most 32 bits is xoring them in and feeding zero bits. */
  lemma FeedWindow(w: bv32, bits: seq<bool>)
    requires |bits| <= 32
    ensures FeedBools(w, bits) == Zeros(|bits|, Xor(w, Word(bits)))
  {
    hide Xor, Zeros, Word, FeedBools, FeedBits;
    WordBits(bits);
    FeedBitsIsBools(w, Word(bits), |bits|);
    FeedBitsIsZeros(w, Word(bits), |bits|);
    XorZero(FeedBits(w, Word(bits), |bits|));
  }

  lemma WindowInjective(w: bv32, a: seq<bool>, b: seq<bool>)
    requires |a| == |b| <= 32 && FeedBools(w, a) == FeedBools(w, b)
    ensures a == b
  {
    hide Xor, Zeros, Word, FeedBools;
    FeedWindow(w, a);
    FeedWindow(w, b);
    ZerosInjective(|a|, Xor(w, Word(a)), Xor(w, Word(b)));
    XorComm(w, Word(a));
    XorComm(w, Word(b));
    XorCancel(Word(a), w);
    XorCancel(Word(b), w);
    WordBits(a);
    WordBits(b);
  }

  lemma {:induction false} BoolsInjective(v: bv32, w: bv32, bits: seq<bool>)
    requires FeedBools(v, bits) == FeedBools(w, bits)
    ensures v == w
    decreases |bits|
  {
    hide FeedBit;
    if bits != [] {
      BoolsInjective(FeedBit(v, bits[0]), FeedBit(w, bits[0]), bits[1..]);
      BitInjective(v, w, bits[0]);
    }
  }

  lemma BitInjective(v: bv32, w: bv32, bit: bool)
    requires FeedBit(v, bit) == FeedBit(w, bit)
    ensures v == w
  {
    FeedBitIsShift(v, bit);
    FeedBitIsShift(w, bit);
    hide FeedBit, Xor, Shift, Bit;
    ShiftInjective(Xor(v, Bit(bit)), Xor(w, Bit(bit)));
    XorCancel(v, Bit(bit));
    XorCancel(w, Bit(bit));
  }

  lemma FeedBitIsShift(w: bv32, bit: bool)
    ensures FeedBit(w, bit) == Shift(Xor(w, Bit(bit)))
  {
    BitParts(bit);
    OddXor(w, Bit(bit));
    HalfXor(w, Bit(bit));
    XorZero(Half(w));
    hide Odd, Half, Xor, Bit;
  }

  lemma BitParts(bit: bool)
    ensures Odd(Bit(bit)) == bit && Half(Bit(bit)) == 0
  {
  }

  // --- Bursts ----------------------------------------------------------------------------------------

  /** Two bit strings that differ only within at most 32 consecutive places and leave the register alike are equal. */
  lemma WindowDecides(w: bv32, a: seq<bool>, b: seq<bool>, from: nat, count: nat)
    requires |a| == |b| && from + count <= |a| && count <= 32
    requires a[..from] == b[..from] && a[from + count..] == b[from + count..]
    requires FeedBools(w, a) == FeedBools(w, b)
    ensures a == b
  {
    hide FeedBools;
    var before, after, x, y := a[..from], a[from + count..], a[from..from + count], b[from..from + count];
    assert a == (before + x) + after && b == (before + y) + after;
    FeedBoolsConcat(w, before + x, after);
    FeedBoolsConcat(w, before + y, after);
    FeedBoolsConcat(w, before, x);
    FeedBoolsConcat(w, before, y);
    BoolsInjective(FeedBools(w, before + x), FeedBools(w, before + y), after);
    WindowInjective(FeedBools(w, before), x, y);
  }

  /** Any burst of damage of at most 32 bits, wherever it begins, changes the CRC. */
  lemma BitBurstDetected(crc: bv32, good: seq<bv8>, bad: seq<bv8>, from: nat, count: nat)
    requires |good| == |bad| && from + count <= 8 * |good| && count <= 32
    requires BitsOf(good)[..from] == BitsOf(bad)[..from]
    requires BitsOf(good)[from + count..] == BitsOf(bad)[from + count..]
    ensures ExtendBitwise(crc, good) == ExtendBitwise(crc, bad) <==> good == bad
  {
    hide Xor, Feed, BitsOf, FeedBools;
    var start := Xor(crc, XOR_MASK);
    if ExtendBitwise(crc, good) == ExtendBitwise(crc, bad) {
      XorCancel(Feed(start, good), XOR_MASK);
      XorCancel(Feed(start, bad), XOR_MASK);
      FeedIsBools(start, good);
      FeedIsBools(start, bad);
      WindowDecides(start, BitsOf(good), BitsOf(bad), from, count);
      EqualMessages(good, bad);
    }
  }

  lemma {:induction false} BitsOfConcat(a: seq<bv8>, b: seq<bv8>)
    ensures BitsOf(a + b) == BitsOf(a) + BitsOf(b)
    decreases |a|
  {
    hide BitsFrom;
    if a == [] {
      assert a + b == b;
    } else {
      assert (a + b)[1..] == a[1..] + b;
      BitsOfConcat(a[1..], b);
    }
  }

  /** In particular two strings that differ only within one stretch of four bytes never have the same CRC. */
  lemma BurstDetected(crc: bv32, before: seq<bv8>, word: seq<bv8>, damaged: seq<bv8>, after: seq<bv8>)
    requires |word| == |damaged| == 4
    ensures ExtendBitwise(crc, before + word + after) == ExtendBitwise(crc, before + damaged + after)
       <==> word == damaged
  {
    hide ExtendBitwise, BitsOf;
    BitsOfConcat(before + word, after);
    BitsOfConcat(before, word);
    BitsOfConcat(before + damaged, after);
    BitsOfConcat(before, damaged);
    BitBurstDetected(crc, before + word + after, before + damaged + after, 8 * |before|, 32);
    assert (before + word + after)[|before|..|before| + 4] == word;
    assert (before + damaged + after)[|before|..|before| + 4] == damaged;
  }
}
