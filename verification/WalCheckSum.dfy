/**
 What the checksum of a log record is worth: it is taken while the header is still spaces, so it is that of the
 record exactly when the written header and a header of spaces leave the CRC register alike.
 */
module WalCheckSum {
  import opened Varint
  import opened MemtableRecord
  import opened Crc32cSpec
  import opened Crc32cProperties
  import opened WalRecord

  /** The header fields behind the checksum, which depend on the number and the two sizes alone. */
  function Fields(number: nat, keySize: nat, valueSize: nat): (fields: Bytes)
    ensures |fields| == 17
  {
    Fixed(number, 8) + ([KIND_SET] + (Fixed(keySize, 4) + Fixed(valueSize, 4)))
  }

  /** What a caller can check beforehand: the fields and as many spaces leave the register alike. */
  predicate HeaderPasses(number: nat, keySize: nat, valueSize: nat) {
    Feed(XOR_MASK, AsWords(Fields(number, keySize, valueSize))) == Feed(XOR_MASK, AsWords(Spaces(17)))
  }

  lemma AsWordsConcat(a: Bytes, b: Bytes)
    ensures AsWords(a + b) == AsWords(a) + AsWords(b)
  {
  }

  /** Two strings with a common end have the same CRC exactly if what comes before leaves the register alike. */
  lemma SameEnd(a: seq<bv8>, b: seq<bv8>, end: seq<bv8>)
    ensures Value(a + end) == Value(b + end) <==> Feed(XOR_MASK, a) == Feed(XOR_MASK, b)
  {
    hide Feed, Xor;
    FeedConcat(XOR_MASK, a, end);
    FeedConcat(XOR_MASK, b, end);
    XorComm(0, XOR_MASK);
    XorZero(XOR_MASK);
    if Value(a + end) == Value(b + end) {
      XorCancel(Feed(XOR_MASK, a + end), XOR_MASK);
      XorCancel(Feed(XOR_MASK, b + end), XOR_MASK);
      FeedInjective(Feed(XOR_MASK, a), Feed(XOR_MASK, b), end);
    }
  }

  lemma CheckSumsAgreeIff(a: Bytes, b: Bytes, end: Bytes)
    ensures CheckSum(a + end) == CheckSum(b + end) <==> Feed(XOR_MASK, AsWords(a)) == Feed(XOR_MASK, AsWords(b))
  {
    AsWordsConcat(a, end);
    AsWordsConcat(b, end);
    SameEnd(AsWords(a), AsWords(b), AsWords(end));
    hide Value, Feed, AsWords;
    if CheckSum(a + end) == CheckSum(b + end) {
      AsNatInjective(Value(AsWords(a + end)), Value(AsWords(b + end)));
    }
  }

  lemma AsNatInjective(v: bv32, w: bv32)
    requires v as nat == w as nat
    ensures v == w
  {
    WordAgain(v);
    WordAgain(w);
  }

  lemma WordAgain(v: bv32)
    ensures (v as nat) as bv32 == v
  {
  }

  lemma RecordParts(e: Entry)
    ensures var end := e.key + (e.value + LOG_END);
            && |LogRecord(e)| >= 4 && |BlankLog(e)| >= 4
            && LogRecord(e)[..4] == Fixed(CheckSum(BlankLog(e)[4..]), 4)
            && LogRecord(e)[4..] == Fields(e.number, |e.key|, |e.value|) + end
            && BlankLog(e)[4..] == Spaces(17) + end
  {
    var end := e.key + (e.value + LOG_END);
    BlankParts(e);
    HeaderFields(e);
    hide CheckSum, Fixed, BlankLog;
    CutFour(Fixed(CheckSum(BlankLog(e)[4..]), 4), Fields(e.number, |e.key|, |e.value|), end);
    CutFour(Spaces(4), Spaces(17), end);
  }

  lemma BlankParts(e: Entry)
    ensures BlankLog(e) == Spaces(4) + Spaces(17) + (e.key + (e.value + LOG_END))
  {
  }

  lemma CutFour(a: Bytes, b: Bytes, c: Bytes)
    requires |a| == 4
    ensures (a + b + c)[..4] == a && (a + b + c)[4..] == b + c
  {
  }

  /** The checksum in a record is that of the record exactly if its number and sizes pass. */
  lemma StoredCheckSumIff(e: Entry)
    requires Loggable(e)
    ensures |LogRecord(e)| >= 4
    ensures DecodeFixed(LogRecord(e)[..4]) == CheckSum(LogRecord(e)[4..]) <==> HeaderPasses(e.number, |e.key|, |e.value|)
  {
    var end := e.key + (e.value + LOG_END);
    RecordParts(e);
    Widths();
    FixedBack(CheckSum(BlankLog(e)[4..]), 4);
    hide CheckSum, Fixed, DecodeFixed, BlankLog, LogRecord, Feed, Fields;
    CheckSumsAgreeIff(Fields(e.number, |e.key|, |e.value|), Spaces(17), end);
  }

  // --- A record that fails ---------------------------------------------------------------------------

  function Same(b: bv8, n: nat): (s: seq<bv8>)
    ensures |s| == n && forall i: nat | i < n :: s[i] == b
  {
    if n == 0 then [] else [b] + Same(b, n - 1)
  }

  lemma FeedSame(w: bv32, b: bv8, n: nat, w1: bv32)
    requires n > 0 && FeedBits(w, b as bv32, 8) == w1
    ensures Feed(w, Same(b, n)) == Feed(w1, Same(b, n - 1))
  {
    assert Same(b, n)[1..] == Same(b, n - 1);
    hide FeedBits;
  }

  lemma FeedZeros0()
    ensures Feed(0xffffffff, Same(0x00, 17)) == Feed(0xa8d58375, Same(0x00, 11))
  {
    assert FeedBits(0xffffffff, 0x00, 8) == 0xad82acae;
    assert FeedBits(0xad82acae, 0x00, 8) == 0x0e9e882d;
    assert FeedBits(0x0e9e882d, 0x00, 8) == 0x9f9b5c85;
    assert FeedBits(0x9f9b5c85, 0x00, 8) == 0xb798b438;
    assert FeedBits(0xb798b438, 0x00, 8) == 0xba8d89ca;
    assert FeedBits(0xba8d89ca, 0x00, 8) == 0xa8d58375;
    hide FeedBits, Feed, Same;
    FeedSame(0xffffffff, 0x00, 17, 0xad82acae);
    FeedSame(0xad82acae, 0x00, 16, 0x0e9e882d);
    FeedSame(0x0e9e882d, 0x00, 15, 0x9f9b5c85);
    FeedSame(0x9f9b5c85, 0x00, 14, 0xb798b438);
    FeedSame(0xb798b438, 0x00, 13, 0xba8d89ca);
    FeedSame(0xba8d89ca, 0x00, 12, 0xa8d58375);
  }

  lemma FeedZeros1()
    ensures Feed(0xa8d58375, Same(0x00, 11)) == Feed(0xd49f4aa2, Same(0x00, 5))
  {
    assert FeedBits(0xa8d58375, 0x00, 8) == 0x44c19592;
    assert FeedBits(0x44c19592, 0x00, 8) == 0x73d74d75;
    assert FeedBits(0x73d74d75, 0x00, 8) == 0x441a975c;
    assert FeedBits(0x441a975c, 0x00, 8) == 0x1c220f94;
    assert FeedBits(0x1c220f94, 0x00, 8) == 0x552e4907;
    assert FeedBits(0x552e4907, 0x00, 8) == 0xd49f4aa2;
    hide FeedBits, Feed, Same;
    FeedSame(0xa8d58375, 0x00, 11, 0x44c19592);
    FeedSame(0x44c19592, 0x00, 10, 0x73d74d75);
    FeedSame(0x73d74d75, 0x00, 9, 0x441a975c);
    FeedSame(0x441a975c, 0x00, 8, 0x1c220f94);
    FeedSame(0x1c220f94, 0x00, 7, 0x552e4907);
    FeedSame(0x552e4907, 0x00, 6, 0xd49f4aa2);
  }

  lemma FeedZeros2()
    ensures Feed(0xd49f4aa2, Same(0x00, 5)) == Feed(0x25125c16, Same(0x00, 0))
  {
    assert FeedBits(0xd49f4aa2, 0x00, 8) == 0x43a45a1b;
    assert FeedBits(0x43a45a1b, 0x00, 8) == 0x8994c80e;
    assert FeedBits(0x8994c80e, 0x00, 8) == 0xacf12bef;
    assert FeedBits(0xacf12bef, 0x00, 8) == 0xbd8f6515;
    assert FeedBits(0xbd8f6515, 0x00, 8) == 0x25125c16;
    hide FeedBits, Feed, Same;
    FeedSame(0xd49f4aa2, 0x00, 5, 0x43a45a1b);
    FeedSame(0x43a45a1b, 0x00, 4, 0x8994c80e);
    FeedSame(0x8994c80e, 0x00, 3, 0xacf12bef);
    FeedSame(0xacf12bef, 0x00, 2, 0xbd8f6515);
    FeedSame(0xbd8f6515, 0x00, 1, 0x25125c16);
  }

  lemma FeedSpaces0()
    ensures Feed(0xffffffff, Same(0x20, 17)) == Feed(0x5fdea2ec, Same(0x20, 11))
  {
    assert FeedBits(0xffffffff, 0x20, 8) == 0x8d3f2270;
    assert FeedBits(0x8d3f2270, 0x20, 8) == 0x51a8e5f1;
    assert FeedBits(0x51a8e5f1, 0x20, 8) == 0x21e9ca4d;
    assert FeedBits(0x21e9ca4d, 0x20, 8) == 0xdecf367b;
    assert FeedBits(0xdecf367b, 0x20, 8) == 0xc872bede;
    assert FeedBits(0xc872bede, 0x20, 8) == 0x5fdea2ec;
    hide FeedBits, Feed, Same;
    FeedSame(0xffffffff, 0x20, 17, 0x8d3f2270);
    FeedSame(0x8d3f2270, 0x20, 16, 0x51a8e5f1);
    FeedSame(0x51a8e5f1, 0x20, 15, 0x21e9ca4d);
    FeedSame(0x21e9ca4d, 0x20, 14, 0xdecf367b);
    FeedSame(0xdecf367b, 0x20, 13, 0xc872bede);
    FeedSame(0xc872bede, 0x20, 12, 0x5fdea2ec);
  }

  lemma FeedSpaces1()
    ensures Feed(0x5fdea2ec, Same(0x20, 11)) == Feed(0x6e2dba9c, Same(0x20, 5))
  {
    assert FeedBits(0x5fdea2ec, 0x20, 8) == 0x8e9137b6;
    assert FeedBits(0x8e9137b6, 0x20, 8) == 0xb4878ac8;
    assert FeedBits(0xb4878ac8, 0x20, 8) == 0x695d775f;
    assert FeedBits(0x695d775f, 0x20, 8) == 0x2fe2355e;
    assert FeedBits(0x2fe2355e, 0x20, 8) == 0xddcf091f;
    assert FeedBits(0xddcf091f, 0x20, 8) == 0x6e2dba9c;
    hide FeedBits, Feed, Same;
    FeedSame(0x5fdea2ec, 0x20, 11, 0x8e9137b6);
    FeedSame(0x8e9137b6, 0x20, 10, 0xb4878ac8);
    FeedSame(0xb4878ac8, 0x20, 9, 0x695d775f);
    FeedSame(0x695d775f, 0x20, 8, 0x2fe2355e);
    FeedSame(0x2fe2355e, 0x20, 7, 0xddcf091f);
    FeedSame(0xddcf091f, 0x20, 6, 0x6e2dba9c);
  }

  lemma FeedSpaces2()
    ensures Feed(0x6e2dba9c, Same(0x20, 5)) == Feed(0x05525e6d, Same(0x20, 0))
  {
    assert FeedBits(0x6e2dba9c, 0x20, 8) == 0xff3890a3;
    assert FeedBits(0xff3890a3, 0x20, 8) == 0x9159f01c;
    assert FeedBits(0x9159f01c, 0x20, 8) == 0x7d31df91;
    assert FeedBits(0x7d31df91, 0x20, 8) == 0x4003c015;
    assert FeedBits(0x4003c015, 0x20, 8) == 0x05525e6d;
    hide FeedBits, Feed, Same;
    FeedSame(0x6e2dba9c, 0x20, 5, 0xff3890a3);
    FeedSame(0xff3890a3, 0x20, 4, 0x9159f01c);
    FeedSame(0x9159f01c, 0x20, 3, 0x7d31df91);
    FeedSame(0x7d31df91, 0x20, 2, 0x4003c015);
    FeedSame(0x4003c015, 0x20, 1, 0x05525e6d);
  }

  lemma SameDiffers()
    ensures Feed(XOR_MASK, Same(0, 17)) == 0x25125c16 && Feed(XOR_MASK, Same(32, 17)) == 0x05525e6d
  {
    assert Feed(0x25125c16, Same(0, 0)) == 0x25125c16 && Feed(0x05525e6d, Same(32, 0)) == 0x05525e6d;
    hide Feed, Same;
    FeedZeros0();
    FeedZeros1();
    FeedZeros2();
    FeedSpaces0();
    FeedSpaces1();
    FeedSpaces2();
  }

  /** The set of an empty key to an empty value under number 0: its checksum is not that of its record. */
  lemma EmptySetFailsCheckSum()
    ensures var e := Entry(0, [], []);
            Loggable(e) && DecodeFixed(LogRecord(e)[..4]) != CheckSum(LogRecord(e)[4..])
  {
    SameDiffers();
    ZeroFields();
    hide Feed, Same, Fields, CheckSum, Fixed, DecodeFixed, LogRecord;
    StoredCheckSumIff(Entry(0, [], []));
  }

  lemma ZeroFields()
    ensures AsWords(Fields(0, 0, 0)) == Same(0, 17)
    ensures AsWords(Spaces(17)) == Same(32, 17)
  {
    FixedZero(8);
    FixedZero(4);
    assert forall i: nat | i < 17 :: Fields(0, 0, 0)[i] == 0;
    assert AsWord(0) == 0 && AsWord(32) == 32;
  }

  lemma {:induction false} FixedZero(n: nat)
    ensures forall i: nat | i < n :: Fixed(0, n)[i] == 0
  {
    if n > 0 { FixedZero(n - 1); }
  }
}
