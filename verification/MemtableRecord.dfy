/**
 The record a memtable keeps for a key: how `Set` lays it out in a string of spaces and writes the header
 fields over it, how `Get` and the flush read it back, and exactly when they read what was set.

   | key size | key | sequence number | type | value size | value |
 */
module MemtableRecord {
  import opened Common
  import opened Varint

  const SPACE: Byte := 32
  const TYPE_DELETION: Byte := 0
  const TYPE_VALUE: Byte := 1

  function Spaces(n: nat): Bytes {
    seq(n, _ => SPACE)
  }

  predicate SizesFit(key: Bytes, value: Bytes) {
    |key| < TWO_TO_THE_32 && |value| < TWO_TO_THE_32
  }

  // --- Set -------------------------------------------------------------------------------------------

  /**
   The string before the header fields are written. The room for the sequence number is taken from the
   value's size.
   */
  function Blank(key: Bytes, value: Bytes): Bytes {
    Spaces(|Encode(|key|)|) + key + Spaces(|Encode(|value|)|) + [SPACE] + Spaces(|Encode(|value|)|) + value
  }

  /** The header fields, in the order in which they are written from the front. */
  function Header(key: Bytes, number: nat, value: Bytes): Bytes {
    Encode(|key|) + (key + (Encode(number) + ([TYPE_VALUE] + Encode(|value|))))
  }

  /** The stored record; None if the header fields run past the end of the string. */
  function SetRecord(key: Bytes, number: nat, value: Bytes): Option<Bytes> {
    if |Header(key, number, value)| <= |Blank(key, value)|
    then Some(Header(key, number, value) + Blank(key, value)[|Header(key, number, value)|..])
    else None
  }

  /** The blank string, its parts sized by varintLength. */
  method FormatBlank(key: Bytes, value: Bytes) returns (record: array<Byte>)
    ensures fresh(record)
    ensures record[..] == Blank(key, value)
  {
    var keyRoom := VarintLength(|key|);
    var valueRoom := VarintLength(|value|);
    var blank := Spaces(keyRoom) + key + Spaces(valueRoom) + [SPACE] + Spaces(valueRoom) + value;
    record := new Byte[|blank|](i requires 0 <= i < |blank| => blank[i]);
    hide Encode, Spaces;
    assert record[..] == blank;
  }

  /** Set, field by field through a moving position. */
  method FormatSet(key: Bytes, number: nat, value: Bytes) returns (record: array<Byte>)
    requires SizesFit(key, value) && number < TWO_TO_THE_64
    requires SetRecord(key, number, value).Some?
    ensures fresh(record)
    ensures record[..] == SetRecord(key, number, value).value
  {
    hide Encode, Blank, Overwritten;
    record := FormatBlank(key, value);
    ghost var blank := Blank(key, value);
    ghost var h1 := Encode(|key|) + key;
    ghost var h2 := h1 + Encode(number);
    ghost var h3 := h2 + [TYPE_VALUE];
    HeaderFromFront(key, number, value);
    hide Header;

    var p := EncodeVarint32(record, 0, |key|);
    KeyInPlace(key, value);
    OverwrittenTwice(blank, 0, Encode(|key|), key);
    p := p + |key|;
    p := EncodeVarint64(record, p, number);
    OverwrittenTwice(blank, 0, h1, Encode(number));
    p := PutByte(record, p, TYPE_VALUE);
    OverwrittenTwice(blank, 0, h2, [TYPE_VALUE]);
    p := EncodeVarint32(record, p, |value|);
    OverwrittenTwice(blank, 0, h3, Encode(|value|));
    WrittenFromFront(blank, h3 + Encode(|value|));
  }

  lemma HeaderFromFront(key: Bytes, number: nat, value: Bytes)
    ensures Encode(|key|) + key + Encode(number) + [TYPE_VALUE] + Encode(|value|) == Header(key, number, value)
  {
    hide Encode;
    Assoc(Encode(|key|) + key + Encode(number), [TYPE_VALUE], Encode(|value|));
    Assoc(Encode(|key|) + key, Encode(number), [TYPE_VALUE] + Encode(|value|));
    Assoc(Encode(|key|), key, Encode(number) + ([TYPE_VALUE] + Encode(|value|)));
  }

  /** The key is where the string has it already. */
  lemma KeyInPlace(key: Bytes, value: Bytes)
    ensures |Encode(|key|)| + |key| <= |Blank(key, value)|
    ensures var sized := Overwritten(Blank(key, value), 0, Encode(|key|));
            sized == Overwritten(sized, |Encode(|key|)|, key)
  {
    hide Encode;
  }

  lemma WrittenFromFront(buffer: Bytes, bytes: Bytes)
    requires |bytes| <= |buffer|
    ensures Overwritten(buffer, 0, bytes) == bytes + buffer[|bytes|..]
  {
  }

  // --- Reading a record ------------------------------------------------------------------------------

  datatype Read =
    | Live(key: Bytes, value: Bytes)
    | Deleted(key: Bytes)
    | BadNumber          // a null pointer would be followed
    | OutOfBounds        // memory outside the record would be read

  /** A slice of the record, as a view would refer to it. */
  function View(record: Bytes, p: nat, size: nat): Option<Bytes> {
    if p + size <= |record| then Some(record[p..p + size]) else None
  }

  /** Get, once the record with the key has been found. */
  function ReadRecord(record: Bytes): Read {
    var size := Parse32(record, 0, 5);
    if !size.Found? then OutOfBounds
    else
      var key := View(record, size.next, size.value);
      var number := Parse64(record, size.next + size.value, size.next + size.value + 9);
      if key.None? || number.PastEnd? then OutOfBounds
      else if number.NoTerminator? then BadNumber
      else if number.next >= |record| then OutOfBounds
      else if record[number.next] == TYPE_DELETION then Deleted(key.value)
      else ReadValue(record, key.value, number.next + 1)
  }

  function ReadValue(record: Bytes, key: Bytes, p: nat): Read {
    var size := Parse32(record, p, p + 5);
    if !size.Found? then OutOfBounds
    else
      var value := View(record, size.next, size.value);
      if value.Some? then Live(key, value.value) else OutOfBounds
  }

  /** formatMemTableToSSTableStr: a record that ends with its key is a deletion, else as in Get. */
  function ReadForFlush(record: Bytes): Read {
    var size := Parse32(record, 0, 5);
    if size.Found? && size.next + size.value == |record| then Deleted(record[size.next..]) else ReadRecord(record)
  }

  // --- What is read is what was set ------------------------------------------------------------------

  /** Whether the number takes as many bytes as were left for it, which is as many as the value's size takes. */
  predicate NumberFits(number: nat, value: Bytes) {
    |Encode(number)| == |Encode(|value|)|
  }

  lemma Assoc(a: Bytes, b: Bytes, c: Bytes)
    ensures (a + b) + c == a + (b + c)
  {
  }

  /** Memory that holds one string after another holds each. */
  lemma HeldSplit(s: Bytes, p: nat, a: Bytes, b: Bytes)
    requires Holds(s, p, a + b)
    ensures Holds(s, p, a) && Holds(s, p + |a|, b)
  {
    assert (a + b)[..|a|] == a && (a + b)[|a|..] == b;
    assert s[p..p + |a|] == s[p..p + |a + b|][..|a|];
    assert s[p + |a|..p + |a| + |b|] == s[p..p + |a + b|][|a|..];
  }

  lemma HeldWhole(s: Bytes)
    ensures Holds(s, 0, s)
  {
  }

  /** Five fields one after the other, held at p. */
  lemma FieldsHeld(s: Bytes, p: nat, a: Bytes, b: Bytes, c: Bytes, d: Bytes, e: Bytes)
    requires Holds(s, p, a + (b + (c + (d + e))))
    ensures Holds(s, p, a) && Holds(s, p + |a|, b) && Holds(s, p + |a| + |b|, c)
    ensures Holds(s, p + |a| + |b| + |c|, d) && Holds(s, p + |a| + |b| + |c| + |d|, e)
  {
    hide Holds;
    HeldSplit(s, p, a, b + (c + (d + e)));
    HeldSplit(s, p + |a|, b, c + (d + e));
    HeldSplit(s, p + |a| + |b|, c, d + e);
    HeldSplit(s, p + |a| + |b| + |c|, d, e);
  }

  /** The header's fields where they lie in a record, the number at p + |key| and the type at q. */
  predicate HeaderAt(record: Bytes, key: Bytes, number: nat, value: Bytes, p: nat, q: nat) {
    && p == |Encode(|key|)| && q == p + |key| + |Encode(number)|
    && Holds(record, 0, Encode(|key|))
    && Holds(record, p, key)
    && Holds(record, p + |key|, Encode(number))
    && Holds(record, q, [TYPE_VALUE])
    && Holds(record, q + 1, Encode(|value|))
  }

  lemma HeaderHolds(key: Bytes, number: nat, value: Bytes, rest: Bytes)
    ensures var p := |Encode(|key|)|;
            var q := p + |key| + |Encode(number)|;
            && HeaderAt(Header(key, number, value) + rest, key, number, value, p, q)
            && q + 1 + |Encode(|value|)| == |Header(key, number, value)|
  {
    var header := Header(key, number, value);
    hide Encode, Holds;
    HeldWhole(header + rest);
    HeldSplit(header + rest, 0, header, rest);
    FieldsHeld(header + rest, 0, Encode(|key|), key, Encode(number), [TYPE_VALUE], Encode(|value|));
  }

  /** The value's part of the record, behind the header. */
  lemma ReadValueAt(header: Bytes, key: Bytes, value: Bytes, rest: Bytes, p: nat)
    requires |value| < TWO_TO_THE_32
    requires Holds(header + rest, p, Encode(|value|)) && p + |Encode(|value|)| == |header|
    ensures ReadValue(header + rest, key, p) == if |value| <= |rest| then Live(key, rest[..|value|]) else OutOfBounds
  {
    var record := header + rest;
    hide Encode, Parse32;
    Decode32(record, p, p + 5, |value|);
    if |value| <= |rest| {
      assert record[|header|..|header| + |value|] == rest[..|value|];
    }
  }

  /** Everything before the value's size. */
  lemma ReadToValue(record: Bytes, key: Bytes, number: nat, value: Bytes, p: nat, q: nat)
    requires |key| < TWO_TO_THE_32 && number < TWO_TO_THE_64
    requires HeaderAt(record, key, number, value, p, q)
    ensures ReadRecord(record) == if number < TWO_TO_THE_63 then ReadValue(record, key, q + 1) else BadNumber
  {
    hide Encode, Parse32, Parse64, ReadValue, ReadRecord, Holds, View;
    HeldView(record, p, key);
    HeldByte(record, q, TYPE_VALUE);
    Decode32(record, 0, 5, |key|);
    Decode64NineBytes(record, p + |key|, number);
    ReadRecordSteps(record, key, p, if number < TWO_TO_THE_63 then Found(number, q) else NoTerminator);
  }

  /** Reading a header followed by anything takes the value from what follows. */
  lemma ReadHeader(key: Bytes, number: nat, value: Bytes, rest: Bytes)
    requires SizesFit(key, value) && number < TWO_TO_THE_64
    ensures ReadRecord(Header(key, number, value) + rest) ==
            if number >= TWO_TO_THE_63 then BadNumber
            else if |value| <= |rest| then Live(key, rest[..|value|])
            else OutOfBounds
  {
    var p := |Encode(|key|)|;
    var q := p + |key| + |Encode(number)|;
    HeaderHolds(key, number, value, rest);
    hide Header, Encode, ReadRecord, ReadValue, Holds;
    ReadToValue(Header(key, number, value) + rest, key, number, value, p, q);
    ReadValueAt(Header(key, number, value), key, value, rest, q + 1);
  }

  lemma ReadRecordSteps(record: Bytes, key: Bytes, p: nat, number: Parsed)
    requires Parse32(record, 0, 5) == Found(|key|, p)
    requires View(record, p, |key|) == Some(key)
    requires number == Parse64(record, p + |key|, p + |key| + 9)
    requires number.Found? ==> number.next < |record| && record[number.next] == TYPE_VALUE
    requires !number.PastEnd?
    ensures ReadRecord(record) == if number.Found? then ReadValue(record, key, number.next + 1) else BadNumber
  {
    hide Parse32, Parse64, ReadValue, View;
  }

  lemma HeldView(record: Bytes, p: nat, bytes: Bytes)
    requires Holds(record, p, bytes)
    ensures View(record, p, |bytes|) == Some(bytes)
  {
  }

  lemma HeldByte(record: Bytes, p: nat, b: Byte)
    requires Holds(record, p, [b])
    ensures p < |record| && record[p] == b
  {
    assert record[p..p + 1][0] == record[p];
  }

  /** A string shifted against itself by spaces is the same only if it is all spaces. */
  lemma {:induction false} ShiftedBySpaces(value: Bytes, gap: nat, i: nat)
    requires gap > 0 && i < |value|
    requires (Spaces(gap) + value)[..|value|] == value
    ensures value[i] == SPACE
    decreases i
  {
    assert value[i] == (Spaces(gap) + value)[..|value|][i] == (Spaces(gap) + value)[i];
    if i >= gap {
      ShiftedBySpaces(value, gap, i - gap);
    }
  }

  lemma ShiftedIffSpaces(value: Bytes, gap: nat)
    ensures (Spaces(gap) + value)[..|value|] == value <==> gap == 0 || value == Spaces(|value|)
  {
    if gap == 0 {
      assert Spaces(0) + value == value;
    } else if (Spaces(gap) + value)[..|value|] == value {
      forall i: nat | i < |value|
        ensures value[i] == SPACE
      {
        ShiftedBySpaces(value, gap, i);
      }
    }
  }

  /** What is left of the blank string behind the header. */
  lemma BlankBehindHeader(key: Bytes, number: nat, value: Bytes)
    requires SetRecord(key, number, value).Some?
    ensures var rest := Blank(key, value)[|Header(key, number, value)|..];
            var room, used := |Encode(|value|)|, |Encode(number)|;
            rest == if used <= room then Spaces(room - used) + value else value[used - room..]
  {
    hide Encode;
  }

  /** What Get reads from the record that Set made, whatever the lengths. */
  lemma ReadSetRecord(key: Bytes, number: nat, value: Bytes)
    requires SizesFit(key, value) && number < TWO_TO_THE_64
    requires SetRecord(key, number, value).Some?
    ensures var room, used := |Encode(|value|)|, |Encode(number)|;
            ReadRecord(SetRecord(key, number, value).value) ==
            if number >= TWO_TO_THE_63 then BadNumber
            else if used <= room then Live(key, (Spaces(room - used) + value)[..|value|])
            else OutOfBounds
  {
    hide Encode, Blank, Header, ReadRecord;
    BlankBehindHeader(key, number, value);
    var rest := Blank(key, value)[|Header(key, number, value)|..];
    var room, used := |Encode(|value|)|, |Encode(number)|;
    ReadHeader(key, number, value, rest);
    HeaderLength(key, number, value);
    assert used <= room ==> rest == Spaces(room - used) + value;
    assert used > room ==> |rest| < |value|;
    LongNumber(number, value);
  }

  /**
   Get returns what Set was given exactly when the number takes as many bytes as the value's size, or takes
   fewer and the value is nothing but spaces.
   */
  lemma SetGetExact(key: Bytes, number: nat, value: Bytes)
    requires SizesFit(key, value) && number < TWO_TO_THE_64
    ensures (SetRecord(key, number, value).Some?
             && ReadRecord(SetRecord(key, number, value).value) == Live(key, value))
       <==> NumberFits(number, value)
            || (|Encode(number)| < |Encode(|value|)| && value == Spaces(|value|))
  {
    hide Encode, Blank, Header, ReadRecord, Spaces;
    HeaderLength(key, number, value);
    LongNumber(number, value);
    var room, used := |Encode(|value|)|, |Encode(number)|;
    assert used <= room ==> SetRecord(key, number, value).Some?;
    if SetRecord(key, number, value).Some? {
      ReadSetRecord(key, number, value);
      if used <= room {
        ShiftedIffSpaces(value, room - used);
      }
    }
  }

  /** A number that the reader cannot decode takes more bytes than any value's size. */
  lemma LongNumber(number: nat, value: Bytes)
    requires |value| < TWO_TO_THE_32
    ensures number >= TWO_TO_THE_63 ==> |Encode(number)| > |Encode(|value|)|
  {
    Powers();
    EncodedLength(|value|, 5);
    EncodedLength(number, 9);
  }

  lemma HeaderLength(key: Bytes, number: nat, value: Bytes)
    ensures |Blank(key, value)| - |Header(key, number, value)| == |Encode(|value|)| + |value| - |Encode(number)|
  {
    hide Encode;
  }

  /** What is read back when the number takes no more bytes than were left for it: the value, moved by what it left. */
  function ReadBack(number: nat, value: Bytes): (r: Bytes)
    requires |Encode(number)| <= |Encode(|value|)|
    ensures |r| == |value|
  {
    (Spaces(|Encode(|value|)| - |Encode(number)|) + value)[..|value|]
  }

  /** The header stays inside the string exactly when the number takes no more bytes than its room and the value. */
  lemma SetRecordIff(key: Bytes, number: nat, value: Bytes)
    ensures SetRecord(key, number, value).Some? <==> |Encode(number)| <= |Encode(|value|)| + |value|
  {
    hide Encode, Blank, Header;
    HeaderLength(key, number, value);
  }

  /** The flush reads every record that Set made as Get does. */
  lemma FlushReadsAsGet(key: Bytes, number: nat, value: Bytes)
    requires SizesFit(key, value) && SetRecord(key, number, value).Some?
    ensures ReadForFlush(SetRecord(key, number, value).value) == ReadRecord(SetRecord(key, number, value).value)
  {
    var header, record := Header(key, number, value), SetRecord(key, number, value).value;
    var rest := Blank(key, value)[|header|..];
    HeaderHolds(key, number, value, rest);
    hide Encode, Blank, Header, ReadRecord;
    assert record == header + rest;
    Decode32(record, 0, 5, |key|);
  }

  /** When the number fits, the record is the header and the value, and both readers return what was set. */
  lemma SetRecordFits(key: Bytes, number: nat, value: Bytes)
    requires SizesFit(key, value) && number < TWO_TO_THE_64 && NumberFits(number, value)
    ensures SetRecord(key, number, value) == Some(Header(key, number, value) + value)
    ensures ReadRecord(Header(key, number, value) + value) == Live(key, value)
    ensures ReadForFlush(Header(key, number, value) + value) == Live(key, value)
  {
    LongNumber(number, value);
    HeaderLength(key, number, value);
    HeaderHolds(key, number, value, value);
    hide Encode, Blank, Header, ReadRecord;
    BlankBehindHeader(key, number, value);
    assert Spaces(0) + value == value;
    ReadHeader(key, number, value, value);
    assert value[..|value|] == value;
    Decode32(Header(key, number, value) + value, 0, 5, |key|);
  }

  /** The 128th write of a short value is one for which that fails: its value cannot be read. */
  lemma SetLosesValue()
    ensures var key, value: Bytes := [107], [118];
            && SetRecord(key, 128, value).Some?
            && ReadRecord(SetRecord(key, 128, value).value) == OutOfBounds
  {
    var key, value: Bytes := [107], [118];
    assert Encode(128) == [128] + Encode(1);
    assert Encode(|value|) == Encode(1) == [1];
    hide Encode, ReadRecord, Header, Blank;
    HeaderLength(key, 128, value);
    ReadSetRecord(key, 128, value);
  }
}
