/** Known bytes: what the encoders write and the decoders read for small inputs, in literals. */
module FormatAnswers {
  import opened Common
  import opened Varint
  import opened MemtableRecord
  import Bloom
  import RecordSet
  import Memtable
  import SstableBody
  import WalRecord
  import WalRing
  import opened Crc32cSpec
  import opened Crc32cProperties
  import KnownAnswers

  // --- Varints ---------------------------------------------------------------------------------------

  lemma EncodeKnown()
    ensures Encode(0) == [0] && Encode(127) == [127] && Encode(128) == [128, 1] && Encode(300) == [172, 2]
    ensures Encode(0xFFFF_FFFF) == [255, 255, 255, 255, 15]
  {
    assert Encode(2) == [2] && Encode(1) == [1];
    Unrolled(0xFFFF_FFFF);
  }

  /** The top bits of a fifth byte fall out of the 32-bit word. */
  lemma ParseKnown()
    ensures Parse32([172, 2], 0, 5) == Found(300, 2)
    ensures Parse32([255, 255, 255, 255, 127], 0, 5) == Found(0xFFFF_FFFF, 5)
    ensures Parse32([255, 255, 255, 255, 255, 1], 0, 6) == NoTerminator
  {
    Powers();
    var s: Bytes := [255, 255, 255, 255, 127];
    var w := Varint.TWO_TO_THE_32;
    assert Pow128(0) == 1;
    assert ParseFrom([172, 2], 1, 5, 1, 44, 5, w) == Found(300, 2);
    assert ParseFrom(s, 4, 5, 4, 0x0FFF_FFFF, 5, w) == Found(0xFFFF_FFFF, 5);
    assert ParseFrom(s, 2, 5, 2, 0x3FFF, 5, w) == Found(0xFFFF_FFFF, 5);
    var t: Bytes := [255, 255, 255, 255, 255, 1];
    assert ParseFrom(t, 4, 6, 4, 0x0FFF_FFFF, 5, w) == NoTerminator;
    assert ParseFrom(t, 2, 6, 2, 0x3FFF, 5, w) == NoTerminator;
  }

  // --- Records ---------------------------------------------------------------------------------------

  lemma SetRecordParts()
    ensures Header([107], 1, [118]) == [1, 107, 1, 1, 1]
    ensures Blank([107], [118]) == [32, 107, 32, 32, 32, 118]
  {
    assert Encode(1) == [1];
    assert Spaces(1) == [32];
    hide Encode, Spaces;
  }

  lemma SetRecordParsed(s: Bytes)
    requires s == [1, 107, 1, 1, 1, 118]
    ensures Parse32(s, 0, 5) == Found(1, 1) && Parse64(s, 2, 11) == Found(1, 3) && Parse32(s, 4, 9) == Found(1, 5)
  {
    assert Pow128(0) == 1;
  }

  /** Key "k", number 1, value "v": key size, key, number, type one, value size, value. */
  lemma SetRecordKnown()
    ensures SetRecord([107], 1, [118]) == Some([1, 107, 1, 1, 1, 118])
    ensures ReadRecord([1, 107, 1, 1, 1, 118]) == Live([107], [118])
  {
    SetRecordParts();
    var s: Bytes := [1, 107, 1, 1, 1, 118];
    SetRecordParsed(s);
    hide Header, Blank, Parse32, Parse64;
    assert SetRecord([107], 1, [118]).value == s;
    assert s[1..2] == [107] && s[5..6] == [118];
  }

  /** A record of type zero is a deletion; for the flush one that ends with its key is. */
  lemma DeletedKnown()
    ensures ReadRecord([1, 107, 1, 0]) == Deleted([107])
    ensures ReadForFlush([1, 107]) == Deleted([107])
  {
    var s: Bytes := [1, 107, 1, 0];
    assert Pow128(0) == 1;
    assert Parse32(s, 0, 5) == Found(1, 1) && Parse64(s, 2, 11) == Found(1, 3);
    assert Parse32([1, 107], 0, 5) == Found(1, 1);
    hide ParseFrom;
    assert s[1..2] == [107] && [1, 107][1..] == [107];
  }

  /** In the body of an sstable there is no number and no type, and a deletion is a key alone. */
  lemma BodyKnown()
    ensures SstableBody.BodyRecord([107], [118]) == [1, 107, 1, 118]
    ensures RecordSet.Probe([107]) == [1, 107]
  {
    assert Encode(1) == [1];
  }

  /** A deletion is flushed as a key alone. */
  lemma DeletedBodyKnown()
    ensures SstableBody.Flushable([1, 107, 1, 0]) && SstableBody.Flushed([1, 107, 1, 0]) == [1, 107]
  {
    DeletedKnown();
    BodyKnown();
    assert Parse32([1, 107, 1, 0], 0, 5) == Found(1, 1) by { assert Pow128(0) == 1; }
    hide ReadRecord, ParseFrom, RecordSet.Probe;
  }

  /** A memtable after one set: its record, and six bytes. */
  lemma OneSetKnown(hashing: Bloom.Hashing, c: Memtable.SetContext)
    requires c == Memtable.SetContext([107], 1, [118])
    ensures Memtable.Storable(c)
    ensures var m := Memtable.AfterSets(64, hashing, [c]); m.records == [[1, 107, 1, 1, 1, 118]] && m.memSize == 6
  {
    SetRecordKnown();
    hide SetRecord, Bloom.Inserted;
    assert [c][..0] == [];
    assert Memtable.AfterSets(64, hashing, []) == Memtable.Empty(64);
  }

  /** Bit nine is the second lowest of the second byte. */
  lemma BitNineKnown()
    ensures Bloom.SetBit(seq(8, _ => 0), 9) == [0, 2, 0, 0, 0, 0, 0, 0]
    ensures Bloom.DelBit(seq(8, _ => 255), 9) == [255, 253, 255, 255, 255, 255, 255, 255]
  {
    assert Bloom.ByteSet(0, 1) == 2 && Bloom.ByteDel(255, 1) == 253;
    hide Bloom.ByteSet, Bloom.ByteDel;
  }

  /** A deletion is told apart from a key that is not there, in the memtable and in a view. */
  lemma ErasedKnown()
    ensures Memtable.AnswerOf([1, 107, 1, 0]) == Memtable.Erased
    ensures SstableBody.AnswerOfView([1, 107], [1, 107]) == Memtable.Erased
    ensures SstableBody.AnswerOfView([1, 107, 1, 118], [1, 107]) == Memtable.Ok([118])
  {
    DeletedKnown();
    var s: Bytes := [1, 107, 1, 118];
    assert Pow128(0) == 1;
    assert Parse32(s, 0, 5) == Found(1, 1) && Parse32(s, 2, 7) == Found(1, 3);
    hide ParseFrom, ReadRecord;
    assert s[3..4] == [118];
  }

  /** Without a value size the key is kept as a record, and the next round begins at the key's first byte. */
  lemma KeyAloneKnown()
    ensures SstableBody.TakeRecord([1, 0, 255, 255, 255, 255, 255], 0) == SstableBody.Taken(1, 2, 1)
  {
    var s: Bytes := [1, 0, 255, 255, 255, 255, 255];
    assert Pow128(0) == 1;
    assert Parse32(s, 0, 5) == Found(1, 1);
    assert Parse32([0], 0, 5) == Found(0, 1);
    KeyAloneParsed(s);
    hide ParseFrom;
    assert s[1..2] == [0];
  }

  lemma KeyAloneParsed(s: Bytes)
    requires |s| == 7 && forall i: nat | 2 <= i < 7 :: s[i] == 255
    ensures Parse32(s, 2, 7) == NoTerminator
  {
    assert ParseFrom(s, 7, 7, 5, 0, 5, Varint.TWO_TO_THE_32) == NoTerminator;
    Powers();
  }

  // --- The log ---------------------------------------------------------------------------------------

  lemma FixedKnown()
    ensures WalRecord.Fixed(0x0102_0304, 4) == [4, 3, 2, 1]
  {
    assert WalRecord.Fixed(0x01, 1) == [1] + WalRecord.Fixed(0, 0);
    assert WalRecord.Fixed(0x0102, 2) == [2] + WalRecord.Fixed(1, 1);
    assert WalRecord.Fixed(0x0102_03, 3) == [3] + WalRecord.Fixed(0x0102, 2);
  }

  lemma SmallFixed(v: nat)
    requires v < 256
    ensures WalRecord.Fixed(v, 4) == [v, 0, 0, 0] && WalRecord.Fixed(v, 8) == [v, 0, 0, 0, 0, 0, 0, 0]
  {
    assert WalRecord.Fixed(0, 2) == [0, 0];
    assert WalRecord.Fixed(0, 3) == [0, 0, 0];
    assert WalRecord.Fixed(0, 5) == [0, 0] + WalRecord.Fixed(0, 3);
    assert WalRecord.Fixed(0, 7) == [0, 0] + WalRecord.Fixed(0, 5);
  }

  lemma SevenFields(seven: Bytes, kind: Bytes, one: Bytes)
    requires seven == [7, 0, 0, 0, 0, 0, 0, 0] && kind == [0] && one == [1, 0, 0, 0]
    ensures seven + (kind + (one + one)) == [7, 0, 0, 0, 0, 0, 0, 0, 0, 1, 0, 0, 0, 1, 0, 0, 0]
  {
  }

  lemma FieldsThenText(sum: Bytes, fields: Bytes, text: Bytes)
    requires |sum| == 4 && fields == [7, 0, 0, 0, 0, 0, 0, 0, 0, 1, 0, 0, 0, 1, 0, 0, 0]
    requires text == [107, 118, 13, 10, 13, 10]
    ensures ((sum + fields) + text)[4..] ==
            [7, 0, 0, 0, 0, 0, 0, 0, 0, 1, 0, 0, 0, 1, 0, 0, 0, 107, 118, 13, 10, 13, 10]
  {
    assert ((sum + fields) + text)[4..] == fields + text;
  }

  lemma LogRecordShape(e: WalRecord.Entry, text: Bytes) returns (sum: Bytes)
    requires text == e.key + (e.value + [13, 10, 13, 10])
    ensures |sum| == 4
    ensures WalRecord.LogRecord(e) ==
            (sum + (WalRecord.Fixed(e.number, 8) + ([0] + (WalRecord.Fixed(|e.key|, 4) + WalRecord.Fixed(|e.value|, 4))))) + text
  {
    hide WalRecord.Fixed, WalRecord.CheckSum;
    sum := WalRecord.Fixed(WalRecord.CheckSum(WalRecord.BlankLog(e)[4..]), 4);
    hide WalRecord.BlankLog;
    WalRecord.HeaderFields(e);
  }

  lemma Text(key: Bytes, value: Bytes)
    requires key == [107] && value == [118]
    ensures key + (value + [13, 10, 13, 10]) == [107, 118, 13, 10, 13, 10]
  {
  }

  /** Number 7, key "k", value "v" behind the checksum: number, type zero, the two lengths, key, value, end mark. */
  lemma LogRecordKnown(e: WalRecord.Entry)
    requires e.number == 7 && e.key == [107] && e.value == [118]
    ensures |WalRecord.LogRecord(e)| == 27
    ensures WalRecord.LogRecord(e)[4..] == [7, 0, 0, 0, 0, 0, 0, 0, 0, 1, 0, 0, 0, 1, 0, 0, 0, 107, 118, 13, 10, 13, 10]
  {
    hide *;
    var text := e.key + (e.value + [13, 10, 13, 10]);
    SmallFixed(7);
    SmallFixed(1);
    var sum := LogRecordShape(e, text);
    Text(e.key, e.value);
    var fields := WalRecord.Fixed(7, 8) + ([0] + (WalRecord.Fixed(1, 4) + WalRecord.Fixed(1, 4)));
    SevenFields(WalRecord.Fixed(7, 8), [0], WalRecord.Fixed(1, 4));
    FieldsThenText(sum, fields, text);
  }

  /** What the checksum is taken of: seventeen spaces, the key, the value and the end mark. */
  lemma LogCheckSumKnown(e: WalRecord.Entry)
    ensures WalRecord.LogRecord(e)[..4] ==
            WalRecord.Fixed(WalRecord.CheckSum(seq(17, _ => 32) + e.key + e.value + [13, 10, 13, 10]), 4)
  {
    hide WalRecord.CheckSum, WalRecord.Fixed;
    assert WalRecord.BlankLog(e)[4..] == seq(17, _ => 32) + e.key + e.value + [13, 10, 13, 10];
    hide WalRecord.BlankLog;
  }

  function TestBytes(): Bytes {
    [0x54, 0x65, 0x73, 0x74, 0x43, 0x52, 0x43, 0x42, 0x75, 0x66, 0x66, 0x65, 0x72]
  }

  lemma TestBytesAsWords(words: seq<bv8>)
    requires words == [0x54, 0x65, 0x73, 0x74, 0x43, 0x52, 0x43, 0x42, 0x75, 0x66, 0x66, 0x65, 0x72]
    ensures WalRecord.AsWords(TestBytes()) == words
  {
    assert WalRecord.AsWord(0x54) == 0x54 && WalRecord.AsWord(0x65) == 0x65 && WalRecord.AsWord(0x73) == 0x73;
    assert WalRecord.AsWord(0x74) == 0x74 && WalRecord.AsWord(0x43) == 0x43 && WalRecord.AsWord(0x52) == 0x52;
    assert WalRecord.AsWord(0x42) == 0x42 && WalRecord.AsWord(0x75) == 0x75 && WalRecord.AsWord(0x66) == 0x66;
    assert WalRecord.AsWord(0x72) == 0x72;
    hide WalRecord.AsWord;
  }

  lemma TestBufferAsWords(words: seq<bv8>)
    requires words == [0x54, 0x65, 0x73, 0x74, 0x43, 0x52, 0x43, 0x42, 0x75, 0x66, 0x66, 0x65, 0x72]
    ensures KnownAnswers.TestBuffer() == words
  {
    assert KnownAnswers.LastFour() == words[9..];
    assert KnownAnswers.LastEight() == words[5..];
  }

  /** The checksum of "TestCRCBuffer" is the CRC that the routine tests itself with, not masked. */
  lemma CheckSumKnown()
    ensures WalRecord.CheckSum(TestBytes()) == 0xdcbc59fa
  {
    var words: seq<bv8> := [0x54, 0x65, 0x73, 0x74, 0x43, 0x52, 0x43, 0x42, 0x75, 0x66, 0x66, 0x65, 0x72];
    TestBytesAsWords(words);
    TestBufferAsWords(words);
    KnownAnswers.TestBufferCrc();
    hide Value, TestBytes, WalRecord.AsWords, KnownAnswers.TestBuffer;
  }

  // --- Masked checksums ------------------------------------------------------------------------------

  lemma MaskKnown()
    ensures Mask(0) == 0xa282_ead8 && Mask(1) == 0xa284_ead8 && Mask(0x8000) == 0xa282_ead9
  {
  }
}
