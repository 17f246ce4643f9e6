/** Known digests that reach every step of XXH64: the byte, four-byte, eight-byte and block steps, and the seed. */
module XxHash64Answers {
  import opened XxHash64Spec

  // --- One step at a time ----------------------------------------------------------------------------

  lemma OneBlock(lanes: Lanes, data: seq<bv8>, after: Lanes)
    requires |data| == BLOCK
    requires after.s0 == ProcessSingle(lanes.s0, Le64(data, 0)) && after.s1 == ProcessSingle(lanes.s1, Le64(data, 8))
    requires after.s2 == ProcessSingle(lanes.s2, Le64(data, 16)) && after.s3 == ProcessSingle(lanes.s3, Le64(data, 24))
    ensures ProcessBlocks(lanes, data) == after
  {
    hide ProcessSingle, Le64;
    assert Process(lanes, data, 0) == after;
    assert data[BLOCK..] == [];
    assert ProcessBlocks(after, []) == after;
  }

  lemma EightEaten(result: bv64, data: seq<bv8>, word: bv64, next: bv64)
    requires |data| >= 8 && Le64(data, 0) == word && EatEight(result, word) == next
    ensures EatTail(result, data) == EatTail(next, data[8..])
  {
    hide Le64, EatEight;
  }

  lemma FourEaten(result: bv64, data: seq<bv8>, word: bv64, next: bv64)
    requires 4 <= |data| < 8 && Le32(data, 0) == word && EatFour(result, word) == next
    ensures EatTail(result, data) == EatBytes(next, data[4..])
  {
    hide Le32, EatFour, EatBytes;
  }

  lemma FewLeft(result: bv64, data: seq<bv8>)
    requires |data| < 4
    ensures EatTail(result, data) == EatBytes(result, data)
  {
    hide EatBytes;
  }

  lemma OneEaten(result: bv64, data: seq<bv8>, next: bv64)
    requires data != [] && EatOne(result, data[0]) == next
    ensures EatBytes(result, data) == EatBytes(next, data[1..])
  {
    hide EatOne;
  }

  lemma NoneLeft(result: bv64)
    ensures EatBytes(result, []) == result && EatTail(result, []) == result
  {
  }

  lemma ShortHash(seed: bv64, data: seq<bv8>, start: bv64, added: bv64, eaten: bv64)
    requires |data| < BLOCK && ShortStart(seed) == start && AddLength(start, |data|) == added
    requires EatTail(added, Tail(data)) == eaten
    ensures Xxh64(seed, data) == Avalanche(eaten)
  {
    hide ShortStart, AddLength, EatTail, Tail, Avalanche;
  }

  lemma LongHash(seed: bv64, data: seq<bv8>, lanes: Lanes, start: bv64, added: bv64, eaten: bv64)
    requires BLOCK <= |data| < TWO_TO_THE_64 && ProcessBlocks(InitialLanes(seed), data) == lanes
    requires Converge(lanes) == start && AddLength(start, |data|) == added && EatTail(added, Tail(data)) == eaten
    ensures Xxh64(seed, data) == Avalanche(eaten)
  {
    hide ProcessBlocks, InitialLanes, Converge, AddLength, EatTail, Tail, Avalanche;
  }

  // --- Digests ---------------------------------------------------------------------------------------

  function ByteData(): (data: seq<bv8>)
    ensures |data| == 1
  {
    [0x61]
  }

  lemma ByteEat0()
    ensures EatOne(0x27d4eb2f165667c6, 0x61) == 0xb86597e419d4d215
  {
    assert (0x61 as bv8) as bv64 * PRIME5 == 0x17ad1cd776bd51a5;
    assert 0x27d4eb2f165667c6 as bv64 ^ 0x17ad1cd776bd51a5 == 0x3079f7f860eb3663;
    assert RotateLeft(0x3079f7f860eb3663, 11) == 0xcfbfc30759b31983;
    assert 0xcfbfc30759b31983 as bv64 * PRIME1 == 0xb86597e419d4d215;
  }

  lemma ByteTail()
    ensures EatTail(0x27d4eb2f165667c6, [0x61]) == 0xb86597e419d4d215
  {
    ByteEat0();
    assert [0x61][1..] == [];
    NoneLeft(0xb86597e419d4d215);
    hide Le64, Le32, EatEight, EatFour, EatOne, EatBytes, EatTail;
    OneEaten(0x27d4eb2f165667c6, [0x61], 0xb86597e419d4d215);
    FewLeft(0x27d4eb2f165667c6, [0x61]);
  }

  lemma ByteEnd()
    ensures Avalanche(0xb86597e419d4d215) == 0xd24ec4f1a98c6e5b
  {
    assert (0xb86597e419d4d215 ^ (0xb86597e419d4d215 >> 33)) * PRIME2 == 0xd7858a2670150b49;
    assert (0xd7858a2670150b49 ^ (0xd7858a2670150b49 >> 29)) * PRIME3 == 0xd24ec4f17bc2aaaa;
  }

  lemma ByteStart()
    ensures AddLength(0x27d4eb2f165667c5, 1) == 0x27d4eb2f165667c6
    ensures ShortStart(0) == 0x27d4eb2f165667c5
  {
  }

  /** "a" under seed 0: the step for one byte. */
  lemma ByteHash()
    ensures Xxh64(0, ByteData()) == 0xd24ec4f1a98c6e5b
  {
    ByteStart();
    ByteTail();
    ByteEnd();
    assert Tail(ByteData()) == [0x61];
    hide Avalanche, EatTail, AddLength, ShortStart, Tail, ByteData;
    ShortHash(0, ByteData(), 0x27d4eb2f165667c5, 0x27d4eb2f165667c6, 0xb86597e419d4d215);
  }

  function FourData(): (data: seq<bv8>)
    ensures |data| == 4
  {
    [0x61, 0x62, 0x63, 0x64]
  }

  lemma FourEat0()
    ensures EatFour(0x27d4eb2f165667c9, 0x64636261) == 0xe08a5499ba7dcb
  {
    assert 0x64636261 as bv64 * PRIME1 == 0x9791f6d410146b27;
    assert 0x27d4eb2f165667c9 as bv64 ^ 0x9791f6d410146b27 == 0xb0451dfb06420cee;
    assert RotateLeft(0xb0451dfb06420cee, 23) == 0xfd8321067758228e;
    assert 0xfd8321067758228e as bv64 * PRIME2 == 0xea8a22a2fb8303d2;
  }

  lemma FourWordAt0()
    ensures Le32([0x61, 0x62, 0x63, 0x64], 0) == 0x64636261
  {
  }

  lemma FourTail()
    ensures EatTail(0x27d4eb2f165667c9, [0x61, 0x62, 0x63, 0x64]) == 0xe08a5499ba7dcb
  {
    FourEat0();
    FourWordAt0();
    assert [0x61, 0x62, 0x63, 0x64][4..] == [];
    NoneLeft(0xe08a5499ba7dcb);
    hide Le64, Le32, EatEight, EatFour, EatOne, EatBytes, EatTail;
    FourEaten(0x27d4eb2f165667c9, [0x61, 0x62, 0x63, 0x64], 0x64636261, 0xe08a5499ba7dcb);
  }

  lemma FourEnd()
    ensures Avalanche(0xe08a5499ba7dcb) == 0xde0327b0d25d92cc
  {
    assert (0xe08a5499ba7dcb ^ (0xe08a5499ba7dcb >> 33)) * PRIME2 == 0xfc0dff0678f2186f;
    assert (0xfc0dff0678f2186f ^ (0xfc0dff0678f2186f >> 29)) * PRIME3 == 0xde0327b00c5eb57c;
  }

  lemma FourStart()
    ensures AddLength(0x27d4eb2f165667c5, 4) == 0x27d4eb2f165667c9
    ensures ShortStart(0) == 0x27d4eb2f165667c5
  {
  }

  /** "abcd" under seed 0: the step for four bytes. */
  lemma FourHash()
    ensures Xxh64(0, FourData()) == 0xde0327b0d25d92cc
  {
    FourStart();
    FourTail();
    FourEnd();
    assert Tail(FourData()) == [0x61, 0x62, 0x63, 0x64];
    hide Avalanche, EatTail, AddLength, ShortStart, Tail, FourData;
    ShortHash(0, FourData(), 0x27d4eb2f165667c5, 0x27d4eb2f165667c9, 0xe08a5499ba7dcb);
  }

  function EightData(): (data: seq<bv8>)
    ensures |data| == 8
  {
    [0x61, 0x62, 0x63, 0x64, 0x65, 0x66, 0x67, 0x68]
  }

  lemma EightEat0()
    ensures EatEight(0x27d4eb2f165667cd, 0x6867666564636261) == 0xa119981d165ad1df
  {
    assert 0x6867666564636261 as bv64 * PRIME2 == 0xc32851d8754e66ef;
    assert 0x0 as bv64 + 0xc32851d8754e66ef == 0xc32851d8754e66ef;
    assert RotateLeft(0xc32851d8754e66ef, 31) == 0x3aa73377e19428ec;
    assert 0x3aa73377e19428ec as bv64 * PRIME1 == 0xd5829fa70a0fcc74;
    assert ProcessSingle(0, 0x6867666564636261) == 0xd5829fa70a0fcc74;
    hide ProcessSingle;
    assert 0x27d4eb2f165667cd as bv64 ^ 0xd5829fa70a0fcc74 == 0xf25674881c59abb9;
    assert RotateLeft(0xf25674881c59abb9, 27) == 0x40e2cd5dcf92b3a4;
    assert 0x40e2cd5dcf92b3a4 as bv64 * PRIME1 == 0x1b2dcda553a8237c;
  }

  lemma EightWordAt0()
    ensures Le64([0x61, 0x62, 0x63, 0x64, 0x65, 0x66, 0x67, 0x68], 0) == 0x6867666564636261
  {
  }

  lemma EightTail()
    ensures EatTail(0x27d4eb2f165667cd, [0x61, 0x62, 0x63, 0x64, 0x65, 0x66, 0x67, 0x68]) == 0xa119981d165ad1df
  {
    EightEat0();
    EightWordAt0();
    assert [0x61, 0x62, 0x63, 0x64, 0x65, 0x66, 0x67, 0x68][8..] == [];
    NoneLeft(0xa119981d165ad1df);
    hide Le64, Le32, EatEight, EatFour, EatOne, EatBytes, EatTail;
    EightEaten(0x27d4eb2f165667cd, [0x61, 0x62, 0x63, 0x64, 0x65, 0x66, 0x67, 0x68], 0x6867666564636261, 0xa119981d165ad1df);
  }

  lemma EightEnd()
    ensures Avalanche(0xa119981d165ad1df) == 0x3ad351775b4634b7
  {
    assert (0xa119981d165ad1df ^ (0xa119981d165ad1df >> 33)) * PRIME2 == 0x2a2d41b7f1860e7f;
    assert (0x2a2d41b7f1860e7f ^ (0x2a2d41b7f1860e7f >> 29)) * PRIME3 == 0x3ad35177619565c0;
  }

  lemma EightStart()
    ensures AddLength(0x27d4eb2f165667c5, 8) == 0x27d4eb2f165667cd
    ensures ShortStart(0) == 0x27d4eb2f165667c5
  {
  }

  /** "abcdefgh" under seed 0: the step for eight bytes. */
  lemma EightHash()
    ensures Xxh64(0, EightData()) == 0x3ad351775b4634b7
  {
    EightStart();
    EightTail();
    EightEnd();
    assert Tail(EightData()) == [0x61, 0x62, 0x63, 0x64, 0x65, 0x66, 0x67, 0x68];
    hide Avalanche, EatTail, AddLength, ShortStart, Tail, EightData;
    ShortHash(0, EightData(), 0x27d4eb2f165667c5, 0x27d4eb2f165667cd, 0xa119981d165ad1df);
  }

  function RestData(): (data: seq<bv8>)
    ensures |data| == 13
  {
    [0x61, 0x62, 0x63, 0x64, 0x65, 0x66, 0x67, 0x68, 0x69, 0x6a, 0x6b, 0x6c, 0x6d]
  }

  lemma RestEat0()
    ensures EatEight(0x27d4eb2f165667d2, 0x6867666564636261) == 0x399597dcee5ad1df
  {
    assert 0x6867666564636261 as bv64 * PRIME2 == 0xc32851d8754e66ef;
    assert 0x0 as bv64 + 0xc32851d8754e66ef == 0xc32851d8754e66ef;
    assert RotateLeft(0xc32851d8754e66ef, 31) == 0x3aa73377e19428ec;
    assert 0x3aa73377e19428ec as bv64 * PRIME1 == 0xd5829fa70a0fcc74;
    assert ProcessSingle(0, 0x6867666564636261) == 0xd5829fa70a0fcc74;
    hide ProcessSingle;
    assert 0x27d4eb2f165667d2 as bv64 ^ 0xd5829fa70a0fcc74 == 0xf25674881c59aba6;
    assert RotateLeft(0xf25674881c59aba6, 27) == 0x40e2cd5d3792b3a4;
    assert 0x40e2cd5d3792b3a4 as bv64 * PRIME1 == 0xb3a9cd652ba8237c;
  }

  lemma RestWordAt0()
    ensures Le64([0x61, 0x62, 0x63, 0x64, 0x65, 0x66, 0x67, 0x68, 0x69, 0x6a, 0x6b, 0x6c, 0x6d], 0) == 0x6867666564636261
  {
  }

  lemma RestEat1()
    ensures EatFour(0x399597dcee5ad1df, 0x6c6b6a69) == 0x768ce6a51537e795
  {
    assert 0x6c6b6a69 as bv64 * PRIME1 == 0x9ed6de4229fef75f;
    assert 0x399597dcee5ad1df as bv64 ^ 0x9ed6de4229fef75f == 0xa743499ec7a42680;
    assert RotateLeft(0xa743499ec7a42680, 23) == 0xcf63d2134053a1a4;
    assert 0xcf63d2134053a1a4 as bv64 * PRIME2 == 0x60367ef377006d9c;
  }

  lemma RestWordAt1()
    ensures Le32([0x69, 0x6a, 0x6b, 0x6c, 0x6d], 0) == 0x6c6b6a69
  {
  }

  lemma RestEat2()
    ensures EatOne(0x768ce6a51537e795, 0x6d) == 0x3dab3d37f952432f
  {
    assert (0x6d as bv8) as bv64 * PRIME5 == 0xf5a8230c82ca2ee1;
    assert 0x768ce6a51537e795 as bv64 ^ 0xf5a8230c82ca2ee1 == 0x8324c5a997fdc974;
    assert RotateLeft(0x8324c5a997fdc974, 11) == 0x262d4cbfee4ba419;
    assert 0x262d4cbfee4ba419 as bv64 * PRIME1 == 0x3dab3d37f952432f;
  }

  lemma RestTail()
    ensures EatTail(0x27d4eb2f165667d2, [0x61, 0x62, 0x63, 0x64, 0x65, 0x66, 0x67, 0x68, 0x69, 0x6a, 0x6b, 0x6c, 0x6d]) == 0x3dab3d37f952432f
  {
    RestEat0();
    RestWordAt0();
    RestEat1();
    RestWordAt1();
    RestEat2();
    assert [0x61, 0x62, 0x63, 0x64, 0x65, 0x66, 0x67, 0x68, 0x69, 0x6a, 0x6b, 0x6c, 0x6d][8..] == [0x69, 0x6a, 0x6b, 0x6c, 0x6d];
    assert [0x69, 0x6a, 0x6b, 0x6c, 0x6d][4..] == [0x6d];
    assert [0x6d][1..] == [];
    NoneLeft(0x3dab3d37f952432f);
    hide Le64, Le32, EatEight, EatFour, EatOne, EatBytes, EatTail;
    OneEaten(0x768ce6a51537e795, [0x6d], 0x3dab3d37f952432f);
    FewLeft(0x768ce6a51537e795, [0x6d]);
    FourEaten(0x399597dcee5ad1df, [0x69, 0x6a, 0x6b, 0x6c, 0x6d], 0x6c6b6a69, 0x768ce6a51537e795);
    EightEaten(0x27d4eb2f165667d2, [0x61, 0x62, 0x63, 0x64, 0x65, 0x66, 0x67, 0x68, 0x69, 0x6a, 0x6b, 0x6c, 0x6d], 0x6867666564636261, 0x399597dcee5ad1df);
  }

  lemma RestEnd()
    ensures Avalanche(0x3dab3d37f952432f) == 0x934adbc0ebc51325
  {
    assert (0x3dab3d37f952432f ^ (0x3dab3d37f952432f >> 33)) * PRIME2 == 0x82d3d0f83081a68c;
    assert (0x82d3d0f83081a68c ^ (0x82d3d0f83081a68c >> 29)) * PRIME3 == 0x934adbc0788fc8e5;
  }

  lemma RestStart()
    ensures AddLength(0x27d4eb2f165667c5, 13) == 0x27d4eb2f165667d2
    ensures ShortStart(0) == 0x27d4eb2f165667c5
  {
  }

  /** "abcdefghijklm" under seed 0: eight, four and one byte, in that order. */
  lemma RestHash()
    ensures Xxh64(0, RestData()) == 0x934adbc0ebc51325
  {
    RestStart();
    RestTail();
    RestEnd();
    assert Tail(RestData()) == [0x61, 0x62, 0x63, 0x64, 0x65, 0x66, 0x67, 0x68, 0x69, 0x6a, 0x6b, 0x6c, 0x6d];
    hide Avalanche, EatTail, AddLength, ShortStart, Tail, RestData;
    ShortHash(0, RestData(), 0x27d4eb2f165667c5, 0x27d4eb2f165667d2, 0x3dab3d37f952432f);
  }

  function BlockData(): (data: seq<bv8>)
    ensures |data| == 32
  {
    [0x61, 0x62, 0x63, 0x64, 0x65, 0x66, 0x67, 0x68, 0x69, 0x6a, 0x6b, 0x6c, 0x6d, 0x6e, 0x6f, 0x70, 0x71, 0x72, 0x73, 0x74, 0x75, 0x76, 0x77, 0x78, 0x79, 0x7a, 0x30, 0x31, 0x32, 0x33, 0x34, 0x35]
  }

  lemma BlockWord0()
    ensures Le64(BlockData(), 0) == 0x6867666564636261
  {
  }

  lemma BlockLane0()
    ensures ProcessSingle(0x60ea27eeadc0b5d6, 0x6867666564636261) == 0x24201c46204b39b5
  {
    assert 0x6867666564636261 as bv64 * PRIME2 == 0xc32851d8754e66ef;
    assert 0x60ea27eeadc0b5d6 as bv64 + 0xc32851d8754e66ef == 0x241279c7230f1cc5;
    assert RotateLeft(0x241279c7230f1cc5, 31) == 0x91878e6292093ce3;
    assert 0x91878e6292093ce3 as bv64 * PRIME1 == 0x24201c46204b39b5;
  }

  lemma BlockWord1()
    ensures Le64(BlockData(), 8) == 0x706f6e6d6c6b6a69
  {
  }

  lemma BlockLane1()
    ensures ProcessSingle(0xc2b2ae3d27d4eb4f, 0x706f6e6d6c6b6a69) == 0xf33e2c3fffa3007d
  {
    assert 0x706f6e6d6c6b6a69 as bv64 * PRIME2 == 0x81d1657a2dc83967;
    assert 0xc2b2ae3d27d4eb4f as bv64 + 0x81d1657a2dc83967 == 0x448413b7559d24b6;
    assert RotateLeft(0x448413b7559d24b6, 31) == 0xaace925b224209db;
    assert 0xaace925b224209db as bv64 * PRIME1 == 0xf33e2c3fffa3007d;
  }

  lemma BlockWord2()
    ensures Le64(BlockData(), 16) == 0x7877767574737271
  {
  }

  lemma BlockLane2()
    ensures ProcessSingle(0x0, 0x7877767574737271) == 0xfa91a0f6a881305b
  {
    assert 0x7877767574737271 as bv64 * PRIME2 == 0x407a791be6420bdf;
    assert 0x0 as bv64 + 0x407a791be6420bdf == 0x407a791be6420bdf;
    assert RotateLeft(0x407a791be6420bdf, 31) == 0xf32105efa03d3c8d;
    assert 0xf32105efa03d3c8d as bv64 * PRIME1 == 0xfa91a0f6a881305b;
  }

  lemma BlockWord3()
    ensures Le64(BlockData(), 24) == 0x3534333231307a79
  {
  }

  lemma BlockLane3()
    ensures ProcessSingle(0x61c8864e7a143579, 0x3534333231307a79) == 0x85147c916ab5610d
  {
    assert 0x3534333231307a79 as bv64 * PRIME2 == 0xe7176b478996de57;
    assert 0x61c8864e7a143579 as bv64 + 0xe7176b478996de57 == 0x48dff19603ab13d0;
    assert RotateLeft(0x48dff19603ab13d0, 31) == 0x1d589e8246ff8cb;
    assert 0x1d589e8246ff8cb as bv64 * PRIME1 == 0x85147c916ab5610d;
  }

  lemma BlockLanes()
    ensures ProcessBlocks(InitialLanes(0), BlockData()) == Lanes(0x24201c46204b39b5, 0xf33e2c3fffa3007d, 0xfa91a0f6a881305b, 0x85147c916ab5610d)
  {
    assert InitialLanes(0) == Lanes(0x60ea27eeadc0b5d6, 0xc2b2ae3d27d4eb4f, 0x0, 0x61c8864e7a143579);
    BlockWord0();
    BlockLane0();
    BlockWord1();
    BlockLane1();
    BlockWord2();
    BlockLane2();
    BlockWord3();
    BlockLane3();
    hide ProcessSingle, Le64, InitialLanes, BlockData;
    OneBlock(Lanes(0x60ea27eeadc0b5d6, 0xc2b2ae3d27d4eb4f, 0x0, 0x61c8864e7a143579), BlockData(), Lanes(0x24201c46204b39b5, 0xf33e2c3fffa3007d, 0xfa91a0f6a881305b, 0x85147c916ab5610d));
  }

  lemma BlockMix()
    ensures MixLanes(Lanes(0x24201c46204b39b5, 0xf33e2c3fffa3007d, 0xfa91a0f6a881305b, 0x85147c916ab5610d)) == 0xf3ab6de9a952865d
  {
    assert RotateLeft(0x24201c46204b39b5, 1) == 0x4840388c4096736a;
    assert RotateLeft(0xf33e2c3fffa3007d, 7) == 0x9f161fffd1803ef9;
    assert RotateLeft(0xfa91a0f6a881305b, 12) == 0x1a0f6a881305bfa9;
    assert RotateLeft(0x85147c916ab5610d, 18) == 0xf245aad584361451;
    hide RotateLeft;
    assert 0x4840388c4096736a as bv64 + 0x9f161fffd1803ef9 + 0x1a0f6a881305bfa9 + 0xf245aad584361451 == 0xf3ab6de9a952865d;
  }

  lemma BlockMerge0()
    ensures MergeLane(0xf3ab6de9a952865d, 0x24201c46204b39b5) == 0x950d398bd4e30dae
  {
    assert 0x24201c46204b39b5 as bv64 * PRIME2 == 0xd5db13806213f5db;
    assert 0x0 as bv64 + 0xd5db13806213f5db == 0xd5db13806213f5db;
    assert RotateLeft(0xd5db13806213f5db, 31) == 0x3109faedeaed89c0;
    assert 0x3109faedeaed89c0 as bv64 * PRIME1 == 0x7c4f1d3485352440;
    assert ProcessSingle(0, 0x24201c46204b39b5) == 0x7c4f1d3485352440;
    hide ProcessSingle;
    assert 0xf3ab6de9a952865d as bv64 ^ 0x7c4f1d3485352440 == 0x8fe470dd2c67a21d;
    assert 0x8fe470dd2c67a21d as bv64 * PRIME1 == 0xf216f1412305f4b;
    assert 0xf216f1412305f4b as bv64 + PRIME4 == 0x950d398bd4e30dae;
  }

  lemma BlockMerge1()
    ensures MergeLane(0x950d398bd4e30dae, 0xf33e2c3fffa3007d) == 0xe4b746463127c6e2
  {
    assert 0xf33e2c3fffa3007d as bv64 * PRIME2 == 0x4cd60342f743e593;
    assert 0x0 as bv64 + 0x4cd60342f743e593 == 0x4cd60342f743e593;
    assert RotateLeft(0x4cd60342f743e593, 31) == 0x7ba1f2c9a66b01a1;
    assert 0x7ba1f2c9a66b01a1 as bv64 * PRIME1 == 0xf9e3bb0b5581e5e7;
    assert ProcessSingle(0, 0xf33e2c3fffa3007d) == 0xf9e3bb0b5581e5e7;
    hide ProcessSingle;
    assert 0x950d398bd4e30dae as bv64 ^ 0xf9e3bb0b5581e5e7 == 0x6cee82808162e849;
    assert 0x6cee82808162e849 as bv64 * PRIME1 == 0x5ecb7bce6e75187f;
    assert 0x5ecb7bce6e75187f as bv64 + PRIME4 == 0xe4b746463127c6e2;
  }

  lemma BlockMerge2()
    ensures MergeLane(0xe4b746463127c6e2, 0xfa91a0f6a881305b) == 0xded8f643f10a62ff
  {
    assert 0xfa91a0f6a881305b as bv64 * PRIME2 == 0x6c8eb1d57f9d7515;
    assert 0x0 as bv64 + 0x6c8eb1d57f9d7515 == 0x6c8eb1d57f9d7515;
    assert RotateLeft(0x6c8eb1d57f9d7515, 31) == 0xbfceba8ab64758ea;
    assert 0xbfceba8ab64758ea as bv64 * PRIME1 == 0xd9df4b749c968766;
    assert ProcessSingle(0, 0xfa91a0f6a881305b) == 0xd9df4b749c968766;
    hide ProcessSingle;
    assert 0xe4b746463127c6e2 as bv64 ^ 0xd9df4b749c968766 == 0x3d680d32adb14184;
    assert 0x3d680d32adb14184 as bv64 * PRIME1 == 0x58ed2bcc2e57b49c;
    assert 0x58ed2bcc2e57b49c as bv64 + PRIME4 == 0xded8f643f10a62ff;
  }

  lemma BlockMerge3()
    ensures MergeLane(0xded8f643f10a62ff, 0x85147c916ab5610d) == 0xa3fb16449c9d49f7
  {
    assert 0x85147c916ab5610d as bv64 * PRIME2 == 0x3992e3eac7d3e203;
    assert 0x0 as bv64 + 0x3992e3eac7d3e203 == 0x3992e3eac7d3e203;
    assert RotateLeft(0x3992e3eac7d3e203, 31) == 0x63e9f1019cc971f5;
    assert 0x63e9f1019cc971f5 as bv64 * PRIME1 == 0xab408a15870d6a33;
    assert ProcessSingle(0, 0x85147c916ab5610d) == 0xab408a15870d6a33;
    hide ProcessSingle;
    assert 0xded8f643f10a62ff as bv64 ^ 0xab408a15870d6a33 == 0x75987c56760708cc;
    assert 0x75987c56760708cc as bv64 * PRIME1 == 0x1e0f4bccd9ea9b94;
    assert 0x1e0f4bccd9ea9b94 as bv64 + PRIME4 == 0xa3fb16449c9d49f7;
  }

  lemma BlockConverge()
    ensures Converge(Lanes(0x24201c46204b39b5, 0xf33e2c3fffa3007d, 0xfa91a0f6a881305b, 0x85147c916ab5610d)) == 0xa3fb16449c9d49f7
  {
    BlockMix();
    BlockMerge0();
    BlockMerge1();
    BlockMerge2();
    BlockMerge3();
    hide MixLanes, MergeLane;
  }

  lemma BlockTail()
    ensures EatTail(0xa3fb16449c9d4a17, []) == 0xa3fb16449c9d4a17
  {
    NoneLeft(0xa3fb16449c9d4a17);
    hide Le64, Le32, EatEight, EatFour, EatOne, EatBytes, EatTail;
  }

  lemma BlockEnd()
    ensures Avalanche(0xa3fb16449c9d4a17) == 0xbf2cd639b4143b80
  {
    assert (0xa3fb16449c9d4a17 ^ (0xa3fb16449c9d4a17 >> 33)) * PRIME2 == 0x386ae8f3451b465b;
    assert (0x386ae8f3451b465b ^ (0x386ae8f3451b465b >> 29)) * PRIME3 == 0xbf2cd6390b38edb9;
  }

  lemma BlockStart()
    ensures AddLength(0xa3fb16449c9d49f7, 32) == 0xa3fb16449c9d4a17
  {
  }

  /** "abcdefghijklmnopqrstuvwxyz012345" under seed 0: a whole block, lanes, mix and merge. */
  lemma BlockHash()
    ensures Xxh64(0, BlockData()) == 0xbf2cd639b4143b80
  {
    BlockStart();
    BlockTail();
    BlockEnd();
    BlockLanes();
    BlockConverge();
    assert Tail(BlockData()) == [];
    hide Avalanche, EatTail, AddLength, ShortStart, Converge, ProcessBlocks, InitialLanes, Tail, BlockData;
    LongHash(0, BlockData(), Lanes(0x24201c46204b39b5, 0xf33e2c3fffa3007d, 0xfa91a0f6a881305b, 0x85147c916ab5610d), 0xa3fb16449c9d49f7, 0xa3fb16449c9d4a17, 0xa3fb16449c9d4a17);
  }

  function SeededData(): (data: seq<bv8>)
    ensures |data| == 32
  {
    [0x61, 0x62, 0x63, 0x64, 0x65, 0x66, 0x67, 0x68, 0x69, 0x6a, 0x6b, 0x6c, 0x6d, 0x6e, 0x6f, 0x70, 0x71, 0x72, 0x73, 0x74, 0x75, 0x76, 0x77, 0x78, 0x79, 0x7a, 0x30, 0x31, 0x32, 0x33, 0x34, 0x35]
  }

  lemma SeededWord0()
    ensures Le64(SeededData(), 0) == 0x6867666564636261
  {
  }

  lemma SeededLane0()
    ensures ProcessSingle(0x60ea27eeadc0b5d7, 0x6867666564636261) == 0xe7160189a04b39b5
  {
    assert 0x6867666564636261 as bv64 * PRIME2 == 0xc32851d8754e66ef;
    assert 0x60ea27eeadc0b5d7 as bv64 + 0xc32851d8754e66ef == 0x241279c7230f1cc6;
    assert RotateLeft(0x241279c7230f1cc6, 31) == 0x91878e6312093ce3;
    assert 0x91878e6312093ce3 as bv64 * PRIME1 == 0xe7160189a04b39b5;
  }

  lemma SeededWord1()
    ensures Le64(SeededData(), 8) == 0x706f6e6d6c6b6a69
  {
  }

  lemma SeededLane1()
    ensures ProcessSingle(0xc2b2ae3d27d4eb50, 0x706f6e6d6c6b6a69) == 0xb63411837fa3007d
  {
    assert 0x706f6e6d6c6b6a69 as bv64 * PRIME2 == 0x81d1657a2dc83967;
    assert 0xc2b2ae3d27d4eb50 as bv64 + 0x81d1657a2dc83967 == 0x448413b7559d24b7;
    assert RotateLeft(0x448413b7559d24b7, 31) == 0xaace925ba24209db;
    assert 0xaace925ba24209db as bv64 * PRIME1 == 0xb63411837fa3007d;
  }

  lemma SeededWord2()
    ensures Le64(SeededData(), 16) == 0x7877767574737271
  {
  }

  lemma SeededLane2()
    ensures ProcessSingle(0x1, 0x7877767574737271) == 0xbd87863a2881305b
  {
    assert 0x7877767574737271 as bv64 * PRIME2 == 0x407a791be6420bdf;
    assert 0x1 as bv64 + 0x407a791be6420bdf == 0x407a791be6420be0;
    assert RotateLeft(0x407a791be6420be0, 31) == 0xf32105f0203d3c8d;
    assert 0xf32105f0203d3c8d as bv64 * PRIME1 == 0xbd87863a2881305b;
  }

  lemma SeededWord3()
    ensures Le64(SeededData(), 24) == 0x3534333231307a79
  {
  }

  lemma SeededLane3()
    ensures ProcessSingle(0x61c8864e7a14357a, 0x3534333231307a79) == 0x480a61d4eab5610d
  {
    assert 0x3534333231307a79 as bv64 * PRIME2 == 0xe7176b478996de57;
    assert 0x61c8864e7a14357a as bv64 + 0xe7176b478996de57 == 0x48dff19603ab13d1;
    assert RotateLeft(0x48dff19603ab13d1, 31) == 0x1d589e8a46ff8cb;
    assert 0x1d589e8a46ff8cb as bv64 * PRIME1 == 0x480a61d4eab5610d;
  }

  lemma SeededLanes()
    ensures ProcessBlocks(InitialLanes(1), SeededData()) == Lanes(0xe7160189a04b39b5, 0xb63411837fa3007d, 0xbd87863a2881305b, 0x480a61d4eab5610d)
  {
    assert InitialLanes(1) == Lanes(0x60ea27eeadc0b5d7, 0xc2b2ae3d27d4eb50, 0x1, 0x61c8864e7a14357a);
    SeededWord0();
    SeededLane0();
    SeededWord1();
    SeededLane1();
    SeededWord2();
    SeededLane2();
    SeededWord3();
    SeededLane3();
    hide ProcessSingle, Le64, InitialLanes, SeededData;
    OneBlock(Lanes(0x60ea27eeadc0b5d7, 0xc2b2ae3d27d4eb50, 0x1, 0x61c8864e7a14357a), SeededData(), Lanes(0xe7160189a04b39b5, 0xb63411837fa3007d, 0xbd87863a2881305b, 0x480a61d4eab5610d));
  }

  lemma SeededMix()
    ensures MixLanes(Lanes(0xe7160189a04b39b5, 0xb63411837fa3007d, 0xbd87863a2881305b, 0x480a61d4eab5610d)) == 0xe7ec1230a9518e47
  {
    assert RotateLeft(0xe7160189a04b39b5, 1) == 0xce2c03134096736b;
    assert RotateLeft(0xb63411837fa3007d, 7) == 0x1a08c1bfd1803edb;
    assert RotateLeft(0xbd87863a2881305b, 12) == 0x7863a2881305bbd8;
    assert RotateLeft(0x480a61d4eab5610d, 18) == 0x8753aad584352029;
    hide RotateLeft;
    assert 0xce2c03134096736b as bv64 + 0x1a08c1bfd1803edb + 0x7863a2881305bbd8 + 0x8753aad584352029 == 0xe7ec1230a9518e47;
  }

  lemma SeededMerge0()
    ensures MergeLane(0xe7ec1230a9518e47, 0xe7160189a04b39b5) == 0x44689c96399d1cca
  {
    assert 0xe7160189a04b39b5 as bv64 * PRIME2 == 0x5d97c9d4e213f5db;
    assert 0x0 as bv64 + 0x5d97c9d4e213f5db == 0x5d97c9d4e213f5db;
    assert RotateLeft(0x5d97c9d4e213f5db, 31) == 0x7109faedaecbe4ea;
    assert 0x7109faedaecbe4ea as bv64 * PRIME1 == 0x24b42226c4f45b66;
    assert ProcessSingle(0, 0xe7160189a04b39b5) == 0x24b42226c4f45b66;
    hide ProcessSingle;
    assert 0xe7ec1230a9518e47 as bv64 ^ 0x24b42226c4f45b66 == 0xc35830166da5d521;
    assert 0xc35830166da5d521 as bv64 * PRIME1 == 0xbe7cd21e76ea6e67;
    assert 0xbe7cd21e76ea6e67 as bv64 + PRIME4 == 0x44689c96399d1cca;
  }

  lemma SeededMerge1()
    ensures MergeLane(0x44689c96399d1cca, 0xb63411837fa3007d) == 0x3b91d8cf08cba454
  {
    assert 0xb63411837fa3007d as bv64 * PRIME2 == 0xd492b9977743e593;
    assert 0x0 as bv64 + 0xd492b9977743e593 == 0xd492b9977743e593;
    assert RotateLeft(0xd492b9977743e593, 31) == 0xbba1f2c9ea495ccb;
    assert 0xbba1f2c9ea495ccb as bv64 * PRIME1 == 0x653ea54115411d0d;
    assert ProcessSingle(0, 0xb63411837fa3007d) == 0x653ea54115411d0d;
    hide ProcessSingle;
    assert 0x44689c96399d1cca as bv64 ^ 0x653ea54115411d0d == 0x215639d72cdc01c7;
    assert 0x215639d72cdc01c7 as bv64 * PRIME1 == 0xb5a60e574618f5f1;
    assert 0xb5a60e574618f5f1 as bv64 + PRIME4 == 0x3b91d8cf08cba454;
  }

  lemma SeededMerge2()
    ensures MergeLane(0x3b91d8cf08cba454, 0xbd87863a2881305b) == 0xdd4b6818ff89464b
  {
    assert 0xbd87863a2881305b as bv64 * PRIME2 == 0xf44b6829ff9d7515;
    assert 0x0 as bv64 + 0xf44b6829ff9d7515 == 0xf44b6829ff9d7515;
    assert RotateLeft(0xf44b6829ff9d7515, 31) == 0xffceba8afa25b414;
    assert 0xffceba8afa25b414 as bv64 * PRIME1 == 0x453a35aa5c55be8c;
    assert ProcessSingle(0, 0xbd87863a2881305b) == 0x453a35aa5c55be8c;
    hide ProcessSingle;
    assert 0x3b91d8cf08cba454 as bv64 ^ 0x453a35aa5c55be8c == 0x7eabed65549e1ad8;
    assert 0x7eabed65549e1ad8 as bv64 * PRIME1 == 0x575f9da13cd697e8;
    assert 0x575f9da13cd697e8 as bv64 + PRIME4 == 0xdd4b6818ff89464b;
  }

  lemma SeededMerge3()
    ensures MergeLane(0xdd4b6818ff89464b, 0x480a61d4eab5610d) == 0x9b8b74791669bce1
  {
    assert 0x480a61d4eab5610d as bv64 * PRIME2 == 0xc14f9a3f47d3e203;
    assert 0x0 as bv64 + 0xc14f9a3f47d3e203 == 0xc14f9a3f47d3e203;
    assert RotateLeft(0xc14f9a3f47d3e203, 31) == 0xa3e9f101e0a7cd1f;
    assert 0xa3e9f101e0a7cd1f as bv64 * PRIME1 == 0x169b744b46cca159;
    assert ProcessSingle(0, 0x480a61d4eab5610d) == 0x169b744b46cca159;
    hide ProcessSingle;
    assert 0xdd4b6818ff89464b as bv64 ^ 0x169b744b46cca159 == 0xcbd01c53b945e712;
    assert 0xcbd01c53b945e712 as bv64 * PRIME1 == 0x159faa0153b70e7e;
    assert 0x159faa0153b70e7e as bv64 + PRIME4 == 0x9b8b74791669bce1;
  }

  lemma SeededConverge()
    ensures Converge(Lanes(0xe7160189a04b39b5, 0xb63411837fa3007d, 0xbd87863a2881305b, 0x480a61d4eab5610d)) == 0x9b8b74791669bce1
  {
    SeededMix();
    SeededMerge0();
    SeededMerge1();
    SeededMerge2();
    SeededMerge3();
    hide MixLanes, MergeLane;
  }

  lemma SeededTail()
    ensures EatTail(0x9b8b74791669bd01, []) == 0x9b8b74791669bd01
  {
    NoneLeft(0x9b8b74791669bd01);
    hide Le64, Le32, EatEight, EatFour, EatOne, EatBytes, EatTail;
  }

  lemma SeededEnd()
    ensures Avalanche(0x9b8b74791669bd01) == 0x1476a5fc111cb8f4
  {
    assert (0x9b8b74791669bd01 ^ (0x9b8b74791669bd01 >> 33)) * PRIME2 == 0xfcbea7b37e3f3ad3;
    assert (0xfcbea7b37e3f3ad3 ^ (0xfcbea7b37e3f3ad3 >> 29)) * PRIME3 == 0x1476a5fc056a1d08;
  }

  lemma SeededStart()
    ensures AddLength(0x9b8b74791669bce1, 32) == 0x9b8b74791669bd01
  {
  }

  /** The same block under seed 1. */
  lemma SeededHash()
    ensures Xxh64(1, SeededData()) == 0x1476a5fc111cb8f4
  {
    SeededStart();
    SeededTail();
    SeededEnd();
    SeededLanes();
    SeededConverge();
    assert Tail(SeededData()) == [];
    hide Avalanche, EatTail, AddLength, ShortStart, Converge, ProcessBlocks, InitialLanes, Tail, SeededData;
    LongHash(1, SeededData(), Lanes(0xe7160189a04b39b5, 0xb63411837fa3007d, 0xbd87863a2881305b, 0x480a61d4eab5610d), 0x9b8b74791669bce1, 0x9b8b74791669bd01, 0x9b8b74791669bd01);
  }
}
