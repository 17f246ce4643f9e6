/**
 The table-driven CRC-32C: an alignment prologue, four interleaved strides of one word each, a
 one-word-at-a-time tail of the strides, their recombination, and a byte tail.
 */
module Crc32c {
  import opened Crc32cSpec
  import opened Crc32cTables

  // --- Words in the data -----------------------------------------------------------------------------

  function Le32(b0: bv8, b1: bv8, b2: bv8, b3: bv8): bv32 {
    (b0 as bv32) | ((b1 as bv32) << 8) | ((b2 as bv32) << 16) | ((b3 as bv32) << 24)
  }

  /** Reads a little-endian 32-bit integer at offset p. */
  function ReadUint32Le(data: seq<bv8>, p: nat): bv32
    requires p + 4 <= |data|
  {
    Le32(data[p], data[p + 1], data[p + 2], data[p + 3])
  }

  /** The smallest multiple of 4 that is not below the address. */
  function RoundUp4(address: nat): (r: nat)
    ensures r % 4 == 0 && address <= r < address + 4
  {
    (address + 3) / 4 * 4
  }

  function Up(w: bv32): bv32 { w << 8 }

  /** The word made by a byte and the bytes above it. */
  function Above(b: bv8, rest: bv32): bv32 { (b as bv32) | (rest << 8) }

  lemma AboveIsSum(b: bv8, rest: bv32)
    ensures Above(b, rest) == Xor(b as bv32, Up(rest))
  {
    assert (b as bv32) | (rest << 8) == (b as bv32) ^ (rest << 8);
  }

  lemma AboveBounds(b1: bv8, b2: bv8, b3: bv8)
    ensures b3 as bv32 < 0x100_0000
    ensures Above(b2, b3 as bv32) < 0x100_0000
    ensures Above(b1, Above(b2, b3 as bv32)) < 0x100_0000
  {
  }

  lemma WordInLanes(b0: bv8, b1: bv8, b2: bv8, b3: bv8)
    ensures Le32(b0, b1, b2, b3) == Above(b0, Above(b1, Above(b2, b3 as bv32)))
  {
  }

  lemma UpShiftsOut(w: bv32)
    requires w < 0x100_0000
    ensures Zeros(8, Up(w)) == w
  {
    hide Zeros;
    ZerosOfLane(w);
  }

  lemma FeedCons(w: bv32, b: bv8, rest: seq<bv8>)
    ensures Feed(w, [b] + rest) == Feed(Zeros(8, Xor(w, b as bv32)), rest)
  {
    hide Zeros, Xor, FeedBits;
    FeedByteIsZeros(w, b);
    assert ([b] + rest)[1..] == rest;
  }

  lemma FeedLane(w: bv32, b: bv8, m: bv32, n: nat)
    requires m < 0x100_0000
    ensures Zeros(8 + n, Xor(w, Above(b, m))) == Zeros(n, Xor(Zeros(8, Xor(w, b as bv32)), m))
  {
    hide *;
    AboveIsSum(b, m);
    UpShiftsOut(m);
    XorAssoc(w, b as bv32, Up(m));
    ZerosLinear(8, Xor(w, b as bv32), Up(m));
    ZerosAdd(8, n, Xor(w, Above(b, m)));
  }

  /** Feeding four bytes is adding the word they make and feeding 32 zero bits. */
  lemma FeedWord(w: bv32, b0: bv8, b1: bv8, b2: bv8, b3: bv8)
    ensures Feed(w, [b0, b1, b2, b3]) == Zeros(32, Xor(w, Le32(b0, b1, b2, b3)))
  {
    hide Zeros, Xor, Above, Le32, FeedBits;
    var m3 := b3 as bv32;
    var m2 := Above(b2, m3);
    var m1 := Above(b1, m2);
    AboveBounds(b1, b2, b3);
    WordInLanes(b0, b1, b2, b3);
    var w1 := Zeros(8, Xor(w, b0 as bv32));
    var w2 := Zeros(8, Xor(w1, b1 as bv32));
    var w3 := Zeros(8, Xor(w2, b2 as bv32));
    FeedLane(w, b0, m1, 24);
    FeedLane(w1, b1, m2, 16);
    FeedLane(w2, b2, m3, 8);
    hide Feed;
    FeedFour(w, b0, b1, b2, b3);
  }

  lemma FeedFour(w: bv32, b0: bv8, b1: bv8, b2: bv8, b3: bv8)
    ensures var w1 := Zeros(8, Xor(w, b0 as bv32));
            var w2 := Zeros(8, Xor(w1, b1 as bv32));
            var w3 := Zeros(8, Xor(w2, b2 as bv32));
            Feed(w, [b0, b1, b2, b3]) == Zeros(8, Xor(w3, b3 as bv32))
  {
    hide *;
    var w1 := Zeros(8, Xor(w, b0 as bv32));
    var w2 := Zeros(8, Xor(w1, b1 as bv32));
    var w3 := Zeros(8, Xor(w2, b2 as bv32));
    FeedCons(w, b0, [b1, b2, b3]);
    FeedCons(w1, b1, [b2, b3]);
    FeedCons(w2, b2, [b3]);
    FeedCons(w3, b3, []);
    assert [b0] + [b1, b2, b3] == [b0, b1, b2, b3];
    assert [b1] + [b2, b3] == [b1, b2, b3];
    assert [b2] + [b3] == [b2, b3];
    assert [b3] + [] == [b3];
    FeedNothing(Zeros(8, Xor(w3, b3 as bv32)));
  }

  lemma FeedNothing(w: bv32)
    ensures Feed(w, []) == w
  {
  }

  // --- One byte through the byte table -----------------------------------------------------------------

  function Down(w: bv32): bv32 { w >> 8 }

  function Low(w: bv32): bv32 { w & 0xff }

  lemma Peel(w: bv32)
    ensures w == Xor(Low(w), Up(Down(w))) && Down(w) < 0x100_0000
  {
  }

  lemma LowIsByte(w: bv32)
    ensures Low(w) & 0xff == Low(w)
  {
  }

  lemma LowOfSum(w: bv32, b: bv8)
    ensures Low(Xor(w, b as bv32)) == Xor(Low(w), b as bv32)
    ensures Low(Xor(Low(w), b as bv32)) == Xor(Low(w), b as bv32)
    ensures Down(Xor(w, b as bv32)) == Down(w)
  {
  }

  /** Eight zero bits take the low byte of a word to its image and move the rest down. */
  lemma ZerosPeeled(n: nat, w: bv32)
    ensures Zeros(8 + n, w) == Xor(Zeros(8 + n, Low(w)), Zeros(n, Down(w)))
  {
    hide *;
    Peel(w);
    ZerosLinear(8 + n, Low(w), Up(Down(w)));
    ZerosAdd(8, n, Up(Down(w)));
    UpShiftsOut(Down(w));
  }

  lemma NoZeros(w: bv32)
    ensures Zeros(0, w) == w
  {
  }

  /** Eight zero bits through the byte table. */
  function ByteShift(w: bv32): bv32 {
    Xor(Down(w), Lookup(BYTE_EXTENSION_TABLE, Low(w)))
  }

  lemma ByteShiftIsZeros(w: bv32)
    ensures ByteShift(w) == Zeros(8, w)
  {
    LowIsByte(w);
    hide Xor, Zeros, Down, Low, Lookup, BYTE_EXTENSION_TABLE;
    ByteTableHolds(Low(w));
    ZerosPeeled(0, w);
    NoZeros(Down(w));
    XorComm(Down(w), Zeros(8, Low(w)));
  }

  /** STEP1: one data byte. */
  function Step1(l: bv32, b: bv8): bv32 {
    var c := Xor(Low(l), b as bv32);
    Xor(Lookup(BYTE_EXTENSION_TABLE, c), Down(l))
  }

  lemma Step1IsFeed(l: bv32, b: bv8)
    ensures Step1(l, b) == Feed(l, [b])
  {
    hide Xor, Zeros, Down, Low, Lookup, BYTE_EXTENSION_TABLE, Feed;
    var w := Xor(l, b as bv32);
    LowOfSum(l, b);
    XorComm(Down(l), Lookup(BYTE_EXTENSION_TABLE, Low(w)));
    assert Step1(l, b) == ByteShift(w);
    ByteShiftIsZeros(w);
    FeedCons(l, b, []);
    assert [b] + [] == [b];
    FeedNothing(Zeros(8, w));
  }

  // --- One word through the stride tables --------------------------------------------------------------

  /** STEP4: the next word of a stride, added to the stride's register moved on by sixteen bytes. */
  function Step4(word: bv32, c: bv32): bv32 {
    Xor(Xor(Xor(Xor(word,
                    Lookup(STRIDE_EXTENSION_TABLE_3, c & 0xff)),
                Lookup(STRIDE_EXTENSION_TABLE_2, (c >> 8) & 0xff)),
            Lookup(STRIDE_EXTENSION_TABLE_1, (c >> 16) & 0xff)),
        Lookup(STRIDE_EXTENSION_TABLE_0, c >> 24))
  }

  lemma LanesOfWord(c: bv32)
    ensures c & 0xff == Low(c)
    ensures (c >> 8) & 0xff == Low(Down(c))
    ensures (c >> 16) & 0xff == Low(Down(Down(c)))
    ensures c >> 24 == Down(Down(Down(c))) == Low(Down(Down(Down(c))))
  {
    assert c & 0xff == Low(c);
    hide Low, Down;
    SecondByte(c);
    ThirdByte(c);
    FourthByte(c);
  }

  lemma SecondByte(c: bv32)
    ensures (c >> 8) & 0xff == Low(Down(c))
  {
  }

  lemma ThirdByte(c: bv32)
    ensures (c >> 16) & 0xff == Low(Down(Down(c)))
  {
  }

  lemma FourthByte(c: bv32)
    ensures c >> 24 == Down(Down(Down(c)))
    ensures c >> 24 == Low(Down(Down(Down(c))))
  {
  }

  lemma StrideTablesHold(w: bv32)
    ensures Lookup(STRIDE_EXTENSION_TABLE_3, Low(w)) == Zeros(128, Low(w))
    ensures Lookup(STRIDE_EXTENSION_TABLE_2, Low(w)) == Zeros(120, Low(w))
    ensures Lookup(STRIDE_EXTENSION_TABLE_1, Low(w)) == Zeros(112, Low(w))
    ensures Lookup(STRIDE_EXTENSION_TABLE_0, Low(w)) == Zeros(104, Low(w))
  {
    LowIsByte(w);
    hide *;
    StrideTable3Holds(Low(w));
    StrideTable2Holds(Low(w));
    StrideTable1Holds(Low(w));
    StrideTable0Holds(Low(w));
  }

  /** Four table lookups advance a stride by sixteen zero bytes, then the next word is added. */
  lemma Step4IsZeros(word: bv32, c: bv32)
    ensures Step4(word, c) == Xor(word, Zeros(128, c))
  {
    hide Xor, Zeros, Down, Low, Lookup;
    hide BYTE_EXTENSION_TABLE, STRIDE_EXTENSION_TABLE_0, STRIDE_EXTENSION_TABLE_1;
    hide STRIDE_EXTENSION_TABLE_2, STRIDE_EXTENSION_TABLE_3;
    LanesOfWord(c);
    var d1 := Down(c);
    var d2 := Down(d1);
    var d3 := Down(d2);
    StrideTablesHold(c);
    StrideTablesHold(d1);
    StrideTablesHold(d2);
    StrideTablesHold(d3);
    ZerosPeeled(120, c);
    ZerosPeeled(112, d1);
    ZerosPeeled(104, d2);
    var z3, z2, z1, z0 := Zeros(128, Low(c)), Zeros(120, Low(d1)), Zeros(112, Low(d2)), Zeros(104, d3);
    assert Step4(word, c) == Xor(Xor(Xor(Xor(word, z3), z2), z1), z0);
    XorAssoc(word, z3, Xor(z2, Xor(z1, z0)));
    XorAssoc(Xor(word, z3), z2, Xor(z1, z0));
    XorAssoc(Xor(Xor(word, z3), z2), z1, z0);
  }

  // --- Four strides --------------------------------------------------------------------------------------

  /** The register that four stride words stand for: what the recombination at the end computes. */
  function Collapse(c0: bv32, c1: bv32, c2: bv32, c3: bv32): bv32 {
    Zeros(32, Xor(Zeros(32, Xor(Zeros(32, Xor(Zeros(32, c0), c1)), c2)), c3))
  }

  /** Each stride word is on its way through 16, 12, 8 and 4 zero bytes. */
  lemma CollapseIsSum(c0: bv32, c1: bv32, c2: bv32, c3: bv32)
    ensures Collapse(c0, c1, c2, c3)
         == Xor(Xor(Xor(Zeros(128, c0), Zeros(96, c1)), Zeros(64, c2)), Zeros(32, c3))
  {
    hide Xor, Zeros;
    var s1 := Zeros(32, c0);
    var s2 := Zeros(32, Xor(s1, c1));
    var s3 := Zeros(32, Xor(s2, c2));
    ZerosLinear(32, s1, c1);
    ZerosAdd(32, 32, c0);
    ZerosLinear(32, s2, c2);
    ZerosLinear(32, Zeros(64, c0), Zeros(32, c1));
    ZerosAdd(64, 32, c0);
    ZerosAdd(32, 32, c1);
    ZerosLinear(32, s3, c3);
    ZerosLinear(32, Xor(Zeros(96, c0), Zeros(64, c1)), Zeros(32, c2));
    ZerosLinear(32, Zeros(96, c0), Zeros(64, c1));
    ZerosAdd(96, 32, c0);
    ZerosAdd(64, 32, c1);
    ZerosAdd(32, 32, c2);
  }

  /** Feeding one more word is one stride step, after which the strides have changed places. */
  lemma StrideAdvance(c0: bv32, c1: bv32, c2: bv32, c3: bv32, word: bv32)
    ensures Zeros(32, Xor(Collapse(c0, c1, c2, c3), word)) == Collapse(c1, c2, c3, Step4(word, c0))
  {
    hide Xor, Zeros, Step4, Collapse;
    Step4IsZeros(word, c0);
    CollapseIsSum(c0, c1, c2, c3);
    var a, b, c, d := Zeros(128, c0), Zeros(96, c1), Zeros(64, c2), Zeros(32, c3);
    CollapseIsSum(c1, c2, c3, Xor(word, a));
    ZerosLinear(32, Xor(Xor(Xor(a, b), c), d), word);
    ZerosLinear(32, Xor(Xor(a, b), c), d);
    ZerosLinear(32, Xor(a, b), c);
    ZerosLinear(32, a, b);
    ZerosAdd(96, 32, c1);
    ZerosAdd(64, 32, c2);
    ZerosAdd(32, 32, c3);
    ZerosLinear(32, word, a);
    Rotate(Zeros(32, a), Zeros(128, c1), Zeros(96, c2), Zeros(64, c3), Zeros(32, word));
  }

  lemma Rotate(a: bv32, b: bv32, c: bv32, d: bv32, w: bv32)
    ensures Xor(Xor(Xor(Xor(a, b), c), d), w) == Xor(Xor(Xor(b, c), d), Xor(w, a))
  {
    hide Xor;
    XorComm(a, b);
    XorSwapLast(b, a, c);
    XorSwapLast(Xor(b, c), a, d);
    XorSwapLast(Xor(Xor(b, c), d), a, w);
    XorAssoc(Xor(Xor(b, c), d), w, a);
  }

  // --- Reading on in the data --------------------------------------------------------------------------

  /** The register after the first p bytes. */
  function FedTo(l: bv32, data: seq<bv8>, p: nat): bv32
    requires p <= |data|
  {
    Feed(l, data[..p])
  }

  lemma FedOneByte(l: bv32, data: seq<bv8>, p: nat)
    requires p < |data|
    ensures FedTo(l, data, p + 1) == Step1(FedTo(l, data, p), data[p])
  {
    hide Feed, Step1;
    assert data[..p + 1] == data[..p] + [data[p]];
    FeedConcat(l, data[..p], [data[p]]);
    Step1IsFeed(FedTo(l, data, p), data[p]);
  }

  lemma FedOneWord(l: bv32, data: seq<bv8>, p: nat)
    requires p + 4 <= |data|
    ensures FedTo(l, data, p + 4) == Zeros(32, Xor(FedTo(l, data, p), ReadUint32Le(data, p)))
  {
    hide Feed, Zeros, Xor, Le32;
    var word := [data[p], data[p + 1], data[p + 2], data[p + 3]];
    assert data[..p + 4] == data[..p] + word;
    FeedConcat(l, data[..p], word);
    FeedWord(FedTo(l, data, p), data[p], data[p + 1], data[p + 2], data[p + 3]);
  }

  /** The first swath: its four words become the strides. */
  lemma FedFirstSwath(l: bv32, data: seq<bv8>, p: nat)
    requires p + 16 <= |data|
    ensures FedTo(l, data, p + 16)
         == Collapse(Xor(ReadUint32Le(data, p), FedTo(l, data, p)), ReadUint32Le(data, p + 4),
                     ReadUint32Le(data, p + 8), ReadUint32Le(data, p + 12))
  {
    hide FedTo, Zeros, Xor, ReadUint32Le;
    FedOneWord(l, data, p);
    FedOneWord(l, data, p + 4);
    FedOneWord(l, data, p + 8);
    FedOneWord(l, data, p + 12);
    XorComm(ReadUint32Le(data, p), FedTo(l, data, p));
  }

  /** The next word of the data, taken by the stride whose turn it is. */
  lemma FedStride(l: bv32, data: seq<bv8>, p: nat, c0: bv32, c1: bv32, c2: bv32, c3: bv32)
    requires p + 4 <= |data|
    requires FedTo(l, data, p) == Collapse(c0, c1, c2, c3)
    ensures FedTo(l, data, p + 4) == Collapse(c1, c2, c3, Step4(ReadUint32Le(data, p), c0))
  {
    hide *;
    FedOneWord(l, data, p);
    StrideAdvance(c0, c1, c2, c3, ReadUint32Le(data, p));
  }

  /** STEP4W: four table steps on a word already loaded. */
  method Step4Word(w: bv32, l: bv32) returns (r: bv32)
    ensures r == Zeros(32, Xor(w, l))
  {
    hide Zeros, Xor, ByteShift;
    r := Xor(w, l);
    NoZeros(r);
    for i := 0 to 4
      invariant r == Zeros(8 * i, Xor(w, l))
    {
      ByteShiftIsZeros(r);
      ZerosAdd(8 * i, 8, Xor(w, l));
      r := ByteShift(r);
    }
  }

  /**
   Extends a CRC by n bytes that start at the given address; the address only decides how many bytes
   are taken singly before the word loops.
   */
  method Extend(crc: bv32, data: seq<bv8>, address: nat) returns (result: bv32)
    ensures result == ExtendBitwise(crc, data)
  {
    hide Zeros, Xor, FedTo, Step1, Step4, Collapse, ReadUint32Le, RoundUp4, Feed;
    var p, e := 0, |data|;
    var l := Xor(crc, XOR_MASK);
    ghost var start := l;
    FedNothing(start, data);

    var x := RoundUp4(address) - address;
    if x <= e {
      while p != x
        invariant 0 <= p <= x
        invariant l == FedTo(start, data, p)
      {
        FedOneByte(start, data, p);
        l := Step1(l, data[p]);
        p := p + 1;
      }
    }

    if e - p >= 16 {
      FedFirstSwath(start, data, p);
      var crc0 := Xor(ReadUint32Le(data, p), l);
      var crc1 := ReadUint32Le(data, p + 4);
      var crc2 := ReadUint32Le(data, p + 8);
      var crc3 := ReadUint32Le(data, p + 12);
      p := p + 16;

      while e - p >= 16
        invariant 0 <= p <= e
        invariant FedTo(start, data, p) == Collapse(crc0, crc1, crc2, crc3)
      {
        FedStride(start, data, p, crc0, crc1, crc2, crc3);
        crc0 := Step4(ReadUint32Le(data, p), crc0);
        FedStride(start, data, p + 4, crc1, crc2, crc3, crc0);
        crc1 := Step4(ReadUint32Le(data, p + 4), crc1);
        FedStride(start, data, p + 8, crc2, crc3, crc0, crc1);
        crc2 := Step4(ReadUint32Le(data, p + 8), crc2);
        FedStride(start, data, p + 12, crc3, crc0, crc1, crc2);
        crc3 := Step4(ReadUint32Le(data, p + 12), crc3);
        p := p + 16;
      }

      while e - p >= 4
        invariant 0 <= p <= e
        invariant FedTo(start, data, p) == Collapse(crc0, crc1, crc2, crc3)
      {
        FedStride(start, data, p, crc0, crc1, crc2, crc3);
        crc0 := Step4(ReadUint32Le(data, p), crc0);
        var tmp := crc0;
        crc0 := crc1;
        crc1 := crc2;
        crc2 := crc3;
        crc3 := tmp;
        p := p + 4;
      }

      l := 0;
      l := Step4Word(crc0, l);
      l := Step4Word(crc1, l);
      l := Step4Word(crc2, l);
      l := Step4Word(crc3, l);
      Recombined(crc0, crc1, crc2, crc3);
    }

    while p != e
      invariant 0 <= p <= e
      invariant l == FedTo(start, data, p)
    {
      FedOneByte(start, data, p);
      l := Step1(l, data[p]);
      p := p + 1;
    }
    FedAll(start, data);
    result := Xor(l, XOR_MASK);
  }

  lemma FedNothing(l: bv32, data: seq<bv8>)
    ensures FedTo(l, data, 0) == l
  {
  }

  lemma FedAll(l: bv32, data: seq<bv8>)
    ensures FedTo(l, data, |data|) == Feed(l, data)
  {
    hide Feed;
    assert data[..|data|] == data;
  }

  lemma Recombined(c0: bv32, c1: bv32, c2: bv32, c3: bv32)
    ensures Zeros(32, Xor(c3, Zeros(32, Xor(c2, Zeros(32, Xor(c1, Zeros(32, Xor(c0, 0))))))))
         == Collapse(c0, c1, c2, c3)
  {
    hide Xor, Zeros;
    XorZero(c0);
    XorComm(c1, Zeros(32, c0));
    var s1 := Zeros(32, Xor(c1, Zeros(32, c0)));
    XorComm(c2, s1);
    XorComm(c3, Zeros(32, Xor(c2, s1)));
  }
}
