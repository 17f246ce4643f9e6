/** Known answers: the two checksum definitions give the values their users publish. */
module KnownAnswers {
  import opened Crc32cSpec
  import opened Crc32cProperties
  import opened XxHash64Spec

  function LastFour(): seq<bv8> {
    [0x66] + ([0x66] + ([0x65] + ([0x72] + [])))
  }

  function LastEight(): seq<bv8> {
    [0x52] + ([0x43] + ([0x42] + ([0x75] + (LastFour()))))
  }

  /** The bytes of "TestCRCBuffer", the string that decides whether the accelerated routine is trusted. */
  function TestBuffer(): seq<bv8> {
    [0x54] + ([0x65] + ([0x73] + ([0x74] + ([0x43] + (LastEight())))))
  }

  lemma FeedOne(w: bv32, b: bv8, rest: seq<bv8>, w1: bv32)
    requires FeedBits(w, b as bv32, 8) == w1
    ensures Feed(w, [b] + rest) == Feed(w1, rest)
  {
    assert ([b] + rest)[1..] == rest;
    hide FeedBits;
  }

  lemma FeedTest0(rest: seq<bv8>)
    ensures Feed(0xffffffff, [0x54] + ([0x65] + ([0x73] + ([0x74] + ([0x43] + rest))))) == Feed(0x270a7107, rest)
  {
    assert FeedBits(0xffffffff, 0x54, 8) == 0x3b3de162;
    assert FeedBits(0x3b3de162, 0x65, 8) == 0xd4f1590a;
    assert FeedBits(0xd4f1590a, 0x73, 8) == 0x09fe7e98;
    assert FeedBits(0x09fe7e98, 0x74, 8) == 0xae7a99b4;
    assert FeedBits(0xae7a99b4, 0x43, 8) == 0x270a7107;
    hide FeedBits, Feed;
    FeedOne(0xffffffff, 0x54, [0x65] + ([0x73] + ([0x74] + ([0x43] + rest))), 0x3b3de162);
    FeedOne(0x3b3de162, 0x65, [0x73] + ([0x74] + ([0x43] + rest)), 0xd4f1590a);
    FeedOne(0xd4f1590a, 0x73, [0x74] + ([0x43] + rest), 0x09fe7e98);
    FeedOne(0x09fe7e98, 0x74, [0x43] + rest, 0xae7a99b4);
    FeedOne(0xae7a99b4, 0x43, rest, 0x270a7107);
  }

  lemma FeedTest1(rest: seq<bv8>)
    ensures Feed(0x270a7107, [0x52] + ([0x43] + ([0x42] + ([0x75] + rest)))) == Feed(0xe8310e9a, rest)
  {
    assert FeedBits(0x270a7107, 0x52, 8) == 0x64f3c4be;
    assert FeedBits(0x64f3c4be, 0x43, 8) == 0x4c22d062;
    assert FeedBits(0x4c22d062, 0x42, 8) == 0x20f1ac0e;
    assert FeedBits(0x20f1ac0e, 0x75, 8) == 0xe8310e9a;
    hide FeedBits, Feed;
    FeedOne(0x270a7107, 0x52, [0x43] + ([0x42] + ([0x75] + rest)), 0x64f3c4be);
    FeedOne(0x64f3c4be, 0x43, [0x42] + ([0x75] + rest), 0x4c22d062);
    FeedOne(0x4c22d062, 0x42, [0x75] + rest, 0x20f1ac0e);
    FeedOne(0x20f1ac0e, 0x75, rest, 0xe8310e9a);
  }

  lemma FeedTest2(rest: seq<bv8>)
    ensures Feed(0xe8310e9a, [0x66] + ([0x66] + ([0x65] + ([0x72] + rest)))) == Feed(0x2343a605, rest)
  {
    assert FeedBits(0xe8310e9a, 0x66, 8) == 0xbec591ab;
    assert FeedBits(0xbec591ab, 0x66, 8) == 0x7c1baf86;
    assert FeedBits(0x7c1baf86, 0x65, 8) == 0xf01c4041;
    assert FeedBits(0xf01c4041, 0x72, 8) == 0x2343a605;
    hide FeedBits, Feed;
    FeedOne(0xe8310e9a, 0x66, [0x66] + ([0x65] + ([0x72] + rest)), 0xbec591ab);
    FeedOne(0xbec591ab, 0x66, [0x65] + ([0x72] + rest), 0x7c1baf86);
    FeedOne(0x7c1baf86, 0x65, [0x72] + rest, 0xf01c4041);
    FeedOne(0xf01c4041, 0x72, rest, 0x2343a605);
  }

  /** The routine's own test value. */
  lemma TestBufferCrc()
    ensures Value(TestBuffer()) == 0xdcbc59fa
  {
    assert Xor(0, XOR_MASK) == 0xffff_ffff;
    assert Xor(0x2343a605, XOR_MASK) == 0xdcbc59fa;
    assert Feed(0x2343a605, []) == 0x2343a605;
    hide FeedBits, Feed, Xor;
    FeedTest2([]);
    FeedTest1(LastFour());
    FeedTest0(LastEight());
  }

  lemma AvalancheOfPrime5()
    ensures Avalanche(PRIME5) == 0xEF46_DB37_51D8_E999
  {
    assert (PRIME5 ^ (PRIME5 >> 33)) * PRIME2 == 0xbeb13dda13c2ed4e;
    assert (0xbeb13dda13c2ed4e ^ (0xbeb13dda13c2ed4e >> 29)) * PRIME3 == 0xef46db37be9e32ae;
  }

  lemma NothingEaten(seed: bv64)
    ensures seed == 0 ==> AddLength(ShortStart(seed), 0) == PRIME5
    ensures EatTail(PRIME5, Tail([])) == PRIME5
  {
  }

  /** The XXH64 of the empty string under seed 0. */
  lemma EmptyHash()
    ensures Xxh64(0, []) == 0xEF46_DB37_51D8_E999
  {
    NothingEaten(0);
    AvalancheOfPrime5();
    hide Avalanche, EatTail, Tail, AddLength, ShortStart;
  }
}
