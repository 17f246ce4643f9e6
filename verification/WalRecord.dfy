/**
 The write-ahead-log record of a set request: fixed-width fields written over a string of spaces.

   | checksum 4 | number 8 | type 1 | key length 4 | value length 4 | key | value | end mark 4 |
 */
module WalRecord {
  import opened Common
  import opened Varint
  import opened MemtableRecord
  import opened Crc32cProperties

  const KIND_SET: Byte := 0
  // The end mark is built from a C string, so it stops at that string's first NUL.
  const LOG_END: Bytes := [13, 10, 13, 10]
  const HEADER_SIZE: nat := 21

  // --- Fixed-width integers, least significant byte first --------------------------------------------

  function Fixed(v: nat, n: nat): (bytes: Bytes)
    ensures |bytes| == n
  {
    if n == 0 then [] else [v % 256] + Fixed(v / 256, n - 1)
  }

  function DecodeFixed(bytes: Bytes): nat {
    if bytes == [] then 0 else bytes[0] + 256 * DecodeFixed(bytes[1..])
  }

  function Pow256(n: nat): (p: nat)
    ensures p > 0
  {
    if n == 0 then 1 else 256 * Pow256(n - 1)
  }

  lemma {:induction false} FixedBack(v: nat, n: nat)
    requires v < Pow256(n)
    ensures DecodeFixed(Fixed(v, n)) == v
  {
    if n > 0 {
      FixedBack(v / 256, n - 1);
      assert Fixed(v, n)[1..] == Fixed(v / 256, n - 1);
    }
  }

  lemma LowByte(b: Byte, rest: nat)
    ensures (b + 256 * rest) % 256 == b && (b + 256 * rest) / 256 == rest
  {
  }

  lemma {:induction false} FixedForth(bytes: Bytes)
    ensures DecodeFixed(bytes) < Pow256(|bytes|)
    ensures Fixed(DecodeFixed(bytes), |bytes|) == bytes
  {
    if bytes != [] {
      FixedForth(bytes[1..]);
      LowByte(bytes[0], DecodeFixed(bytes[1..]));
      assert bytes == [bytes[0]] + bytes[1..];
    }
  }

  lemma Widths()
    ensures Pow256(4) == TWO_TO_THE_32 && Pow256(8) == TWO_TO_THE_64
  {
    assert Pow256(2) == 0x1_0000;
    assert Pow256(4) == 0x1_0000 * Pow256(2);
    assert Pow256(6) == 0x1_0000 * Pow256(4);
    assert Pow256(8) == 0x1_0000 * Pow256(6);
  }

  // --- The record ------------------------------------------------------------------------------------

  datatype Entry = Entry(number: nat, key: Bytes, value: Bytes)

  predicate Loggable(e: Entry) {
    e.number < TWO_TO_THE_64 && SizesFit(e.key, e.value)
  }

  function AsWord(b: Byte): bv8 {
    b as bv8
  }

  function AsWords(bytes: Bytes): seq<bv8> {
    seq(|bytes|, i requires 0 <= i < |bytes| => AsWord(bytes[i]))
  }

  function CheckSum(bytes: Bytes): (c: nat)
    ensures c < TWO_TO_THE_32
  {
    Value(AsWords(bytes)) as nat
  }

  /** The string before the header fields are written. */
  function BlankLog(e: Entry): Bytes {
    Spaces(HEADER_SIZE) + e.key + e.value + LOG_END
  }

  /** The checksum is taken before the header is written, so what it covers is a header of spaces. */
  function LogHeader(e: Entry): Bytes {
    Fixed(CheckSum(BlankLog(e)[4..]), 4) + (Fixed(e.number, 8) + ([KIND_SET] + (Fixed(|e.key|, 4) + Fixed(|e.value|, 4))))
  }

  function LogRecord(e: Entry): Bytes {
    LogHeader(e) + (e.key + (e.value + LOG_END))
  }

  /** The formatter: spaces first, then the fields, each at its place. */
  method SetContextWalLogFormat(e: Entry) returns (log: array<Byte>)
    requires Loggable(e)
    ensures fresh(log)
    ensures log[..] == LogRecord(e)
  {
    var blank := BlankLog(e);
    log := new Byte[|blank|](i requires 0 <= i < |blank| => blank[i]);
    assert log[..] == blank && log[4..] == blank[4..];
    var checkSum := CheckSum(log[4..]);
    HeaderSize(e);
    hide Overwritten, Fixed, CheckSum, BlankLog, LogHeader;
    FiveWritten(blank, Fixed(checkSum, 4), Fixed(e.number, 8), [KIND_SET], Fixed(|e.key|, 4), Fixed(|e.value|, 4));
    HeaderOverBlank(e, LogHeader(e));
    var p := PutBytes(log, 0, Fixed(checkSum, 4));
    p := PutBytes(log, 4, Fixed(e.number, 8));
    p := PutByte(log, 12, KIND_SET);
    p := PutBytes(log, 13, Fixed(|e.key|, 4));
    p := PutBytes(log, 17, Fixed(|e.value|, 4));
    HeaderFields(e);
  }

  lemma HeaderFields(e: Entry)
    ensures LogHeader(e) == Fixed(CheckSum(BlankLog(e)[4..]), 4)
                            + (Fixed(e.number, 8) + ([KIND_SET] + (Fixed(|e.key|, 4) + Fixed(|e.value|, 4))))
  {
  }

  lemma FiveWritten(s: Bytes, a: Bytes, b: Bytes, c: Bytes, d: Bytes, f: Bytes)
    requires |a| == 4 && |b| == 8 && |c| == 1 && |d| == 4 && |f| == 4 && HEADER_SIZE <= |s|
    ensures Overwritten(Overwritten(Overwritten(Overwritten(Overwritten(s, 0, a), 4, b), 12, c), 13, d), 17, f)
            == Overwritten(s, 0, a + (b + (c + (d + f))))
  {
    hide Overwritten;
    OverwrittenTwice(s, 0, a, b);
    OverwrittenTwice(s, 0, a + b, c);
    OverwrittenTwice(s, 0, a + b + c, d);
    OverwrittenTwice(s, 0, a + b + c + d, f);
    assert a + b + c + d + f == a + (b + (c + (d + f)));
  }

  lemma HeaderOverBlank(e: Entry, header: Bytes)
    requires |header| == HEADER_SIZE
    ensures |header| <= |BlankLog(e)|
    ensures Overwritten(BlankLog(e), 0, header) == header + (e.key + (e.value + LOG_END))
  {
    assert BlankLog(e)[HEADER_SIZE..] == e.key + (e.value + LOG_END);
  }

  // --- Cutting a log by its length fields ------------------------------------------------------------

  function CutOne(log: Bytes, p: nat): Option<(Entry, nat)> {
    if |log| < p + HEADER_SIZE then None
    else
      var keySize := DecodeFixed(log[p + 13..p + 17]);
      var valueSize := DecodeFixed(log[p + 17..p + 21]);
      var next := p + HEADER_SIZE + keySize + valueSize + |LOG_END|;
      if |log| < next then None
      else
        Some((Entry(DecodeFixed(log[p + 4..p + 12]),
                    log[p + 21..p + 21 + keySize],
                    log[p + 21 + keySize..p + 21 + keySize + valueSize]), next))
  }

  function Cut(log: Bytes, p: nat): seq<Entry>
    decreases |log| - p
  {
    match CutOne(log, p)
    case None => []
    case Some(one) => [one.0] + Cut(log, one.1)
  }

  function LogRecords(es: seq<Entry>): Bytes {
    if es == [] then [] else LogRecord(es[0]) + LogRecords(es[1..])
  }

  lemma HeaderHeld(log: Bytes, p: nat, e: Entry)
    requires Loggable(e) && Holds(log, p, LogHeader(e))
    ensures p + HEADER_SIZE <= |log|
    ensures DecodeFixed(log[p + 4..p + 12]) == e.number
    ensures DecodeFixed(log[p + 13..p + 17]) == |e.key|
    ensures DecodeFixed(log[p + 17..p + 21]) == |e.value|
  {
    hide Fixed, DecodeFixed, CheckSum, Holds;
    Widths();
    FieldsHeld(log, p, Fixed(CheckSum(BlankLog(e)[4..]), 4), Fixed(e.number, 8), [KIND_SET], Fixed(|e.key|, 4), Fixed(|e.value|, 4));
    FixedBack(e.number, 8);
    FixedBack(|e.key|, 4);
    FixedBack(|e.value|, 4);
    FieldHeld(log, p + 4, Fixed(e.number, 8));
    FieldHeld(log, p + 13, Fixed(|e.key|, 4));
    FieldHeld(log, p + 17, Fixed(|e.value|, 4));
  }

  lemma FieldHeld(log: Bytes, p: nat, field: Bytes)
    requires Holds(log, p, field)
    ensures p + |field| <= |log| && log[p..p + |field|] == field
  {
  }

  lemma CutOneRecord(log: Bytes, p: nat, e: Entry)
    requires Loggable(e) && Holds(log, p, LogRecord(e))
    ensures CutOne(log, p) == Some((e, p + |LogRecord(e)|))
  {
    hide Fixed, DecodeFixed, CheckSum, Holds, LogHeader;
    assert |LogHeader(e)| == HEADER_SIZE by { HeaderSize(e); }
    HeldSplit(log, p, LogHeader(e), e.key + (e.value + LOG_END));
    HeldSplit(log, p + HEADER_SIZE, e.key, e.value + LOG_END);
    HeldSplit(log, p + HEADER_SIZE + |e.key|, e.value, LOG_END);
    HeaderHeld(log, p, e);
    FieldHeld(log, p + HEADER_SIZE, e.key);
    FieldHeld(log, p + HEADER_SIZE + |e.key|, e.value);
    FieldHeld(log, p + HEADER_SIZE + |e.key| + |e.value|, LOG_END);
  }

  lemma HeaderSize(e: Entry)
    ensures |LogHeader(e)| == HEADER_SIZE
  {
  }

  /** Records written one after the other are cut back to the entries they were written for. */
  lemma {:induction false} CutRecords(log: Bytes, p: nat, es: seq<Entry>)
    requires forall e | e in es :: Loggable(e)
    requires p + |LogRecords(es)| == |log| && Holds(log, p, LogRecords(es))
    ensures Cut(log, p) == es
    decreases |es|
  {
    hide LogRecord, CutOne, Loggable;
    if es == [] {
      NothingLeft(log, p);
    } else {
      HeldSplit(log, p, LogRecord(es[0]), LogRecords(es[1..]));
      CutOneRecord(log, p, es[0]);
      CutRecords(log, p + |LogRecord(es[0])|, es[1..]);
      assert es == [es[0]] + es[1..];
    }
  }

  lemma NothingLeft(log: Bytes, p: nat)
    requires p == |log|
    ensures CutOne(log, p) == None
  {
  }
}
