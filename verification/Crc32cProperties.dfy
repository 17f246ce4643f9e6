/**
 What the CRC is for, proved of the bitwise definition that `Crc32c.Extend` computes: it streams,
 a stored checksum is recognised, no register is forgotten, and masking is undone.
 */
module Crc32cProperties {
  import opened Crc32cSpec
  import opened Crc32c

  /** The CRC of a whole string. */
  function Value(data: seq<bv8>): bv32 {
    ExtendBitwise(0, data)
  }

  lemma ExtendConcat(crc: bv32, a: seq<bv8>, b: seq<bv8>)
    ensures ExtendBitwise(ExtendBitwise(crc, a), b) == ExtendBitwise(crc, a + b)
  {
    hide Xor, Feed;
    var w := Feed(Xor(crc, XOR_MASK), a);
    XorCancel(w, XOR_MASK);
    FeedConcat(Xor(crc, XOR_MASK), a, b);
  }

  /** Checksumming in two pieces, wherever each piece lies in memory, checksums the whole. */
  method ExtendTwice(crc: bv32, a: seq<bv8>, addressA: nat, b: seq<bv8>, addressB: nat, address: nat)
    returns (pieces: bv32, whole: bv32)
    ensures pieces == whole
    ensures whole == ExtendBitwise(crc, a + b)
  {
    var first := Extend(crc, a, addressA);
    pieces := Extend(first, b, addressB);
    whole := Extend(crc, a + b, address);
    ExtendConcat(crc, a, b);
  }

  // --- The stored checksum -----------------------------------------------------------------------------

  /** The CRC of any string followed by its own little-endian CRC. */
  const RESIDUE: bv32 := 0x48674bc7

  lemma ThirdByte()
    ensures Zeros(8, 0x0e9e882d) == 0x9f9b5c85
  {
  }

  lemma FourthByte()
    ensures Zeros(8, 0x9f9b5c85) == 0xb798b438
  {
  }

  lemma ResidueOfMask()
    ensures Xor(Zeros(32, XOR_MASK), XOR_MASK) == RESIDUE
  {
    assert Zeros(8, XOR_MASK) == 0xad82acae by { assert XOR_MASK == 0xffff_ffff; }
    assert Zeros(8, 0xad82acae) == 0x0e9e882d;
    ThirdByte();
    FourthByte();
    assert Xor(0xb798b438, XOR_MASK) == RESIDUE;
    hide Zeros;
    ZerosAdd(8, 24, XOR_MASK);
    ZerosAdd(8, 16, 0xad82acae);
    ZerosAdd(8, 8, 0x0e9e882d);
  }

  /** A string and a four-byte trailer check out exactly when the trailer is the string's CRC. */
  lemma TrailerAcceptedIffItIsTheCrc(data: seq<bv8>, b0: bv8, b1: bv8, b2: bv8, b3: bv8)
    ensures Value(data + [b0, b1, b2, b3]) == RESIDUE <==> Le32(b0, b1, b2, b3) == Value(data)
  {
    hide Xor, Feed, Zeros, Le32;
    var start := Xor(0, XOR_MASK);
    var w := Feed(start, data);
    var trailer := Le32(b0, b1, b2, b3);
    FeedConcat(start, data, [b0, b1, b2, b3]);
    FeedWord(w, b0, b1, b2, b3);
    ResidueOfMask();
    if trailer == Value(data) {
      XorAssoc(w, w, XOR_MASK);
      XorZero(w);
      XorZero(XOR_MASK);
    }
    if Value(data + [b0, b1, b2, b3]) == RESIDUE {
      XorCancel(Zeros(32, Xor(w, trailer)), XOR_MASK);
      XorCancel(Zeros(32, XOR_MASK), XOR_MASK);
      ZerosInjective(32, Xor(w, trailer), XOR_MASK);
      XorComm(w, trailer);
      XorCancel(trailer, w);
      XorComm(XOR_MASK, w);
    }
  }

  // --- Nothing is forgotten ---------------------------------------------------------------------------------

  lemma FeedByteInjective(v: bv32, w: bv32, b: bv8)
    requires FeedBits(v, b as bv32, 8) == FeedBits(w, b as bv32, 8)
    ensures v == w
  {
    hide Xor, Zeros, FeedBits;
    FeedByteIsZeros(v, b);
    FeedByteIsZeros(w, b);
    ZerosInjective(8, Xor(v, b as bv32), Xor(w, b as bv32));
    XorCancel(v, b as bv32);
    XorCancel(w, b as bv32);
  }

  lemma {:induction false} FeedInjective(v: bv32, w: bv32, data: seq<bv8>)
    requires Feed(v, data) == Feed(w, data)
    ensures v == w
    decreases |data|
  {
    hide FeedBits;
    if data != [] {
      FeedInjective(FeedBits(v, data[0] as bv32, 8), FeedBits(w, data[0] as bv32, 8), data[1..]);
      FeedByteInjective(v, w, data[0]);
    }
  }

  // --- Masking -------------------------------------------------------------------------------------------

  const MASK_DELTA: bv32 := 0xa282ead8

  /** Rotate right by 15 bits and add a constant (wrapping at 32 bits). */
  function Mask(crc: bv32): bv32 {
    ((crc >> 15) | (crc << 17)) + MASK_DELTA
  }

  function Unmask(masked: bv32): bv32 {
    var rot := masked - MASK_DELTA;
    (rot >> 17) | (rot << 15)
  }

  lemma UnmaskMask(crc: bv32)
    ensures Unmask(Mask(crc)) == crc
  {
    var rot := (crc >> 15) | (crc << 17);
    assert Mask(crc) - MASK_DELTA == rot;
  }

  lemma MaskUnmask(masked: bv32)
    ensures Mask(Unmask(masked)) == masked
  {
    var rot := masked - MASK_DELTA;
    assert rot + MASK_DELTA == masked;
  }
}
