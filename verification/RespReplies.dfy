/** The scanner on single lines, on bytes without a line end, and on the requests its header and tests name. */
module RespReplies {
  import opened RespParser
  import opened RespRoundTrip

  // --- One line --------------------------------------------------------------------------------------

  /** A simple string, an error or an integer gives one view, which reads the text and the carriage return. */
  lemma ReplyLineParsed(kind: char, text: Bytes)
    requires kind in {'+', '-', ':'} && '\r' !in text && |text| + 3 < INT_LIMIT
    ensures var data := [kind] + text + "\r\n";
            Returns(data, [View(1, |text| + 1)]) && data[1..1 + (|text| + 1)] == text + "\r"
  {
    var data := [kind] + text + "\r\n";
    var end := 1 + |text|;
    assert data[0] == kind && data[end] == '\r' && data[1..end + 1] == text + "\r";
    assert Has(data, 0, [kind] + text + "\r\n");
    FindAfter(data, 0, [kind] + text);
    assert Start(data) == At(0, []);
    LineStep(data, 0, end, []);
    hide Find, Step, Returns, Start;
    assert [] + [View(1, end)] == [View(1, end)];
    assert Step(data, At(0, [])) == At(|data|, [View(1, end)]);
    LeadsOne(data, At(0, []));
    EndReached(data, [View(1, end)]);
  }

  /** "PING" is answered before anything is scanned. */
  lemma PingParsed()
    ensures Returns("PING", [Ping])
  {
    assert Steps("PING", Start("PING"), 0) == Returned([Ping]);
  }

  /** A null bulk string gives a view of no bytes that are there: the length minus one becomes unsigned. */
  lemma NullBulkParsed()
    ensures Returns("$-1\r\n", [View(5, 0xFFFF_FFFF_FFFF_FFFF)])
  {
    var data: Bytes := "$-1\r\n";
    var items := [View(5, 0xFFFF_FFFF_FFFF_FFFF)];
    assert data == "$-1" + "\r\n";
    FindAfter(data, 0, "$-1");
    NumberRead(1, "\r");
    assert Decimal(1) == "1";
    assert data[1..4] == "-" + ("1" + "\r");
    assert AsSize(-1) == 0xFFFF_FFFF_FFFF_FFFF;
    assert data[3] == '\r' && data[4] == '\n';
    assert Start(data) == At(0, []);
    BulkStep(data, 0, -1, 3, []);
    LeadsOne(data, At(0, []));
    hide Find, FromChars, Step, Returns, Start, AsSize, Leads;
    assert [] + items == items;
    LineEndRounds(data, 3, items);
    LeadsOn(data, At(0, []), At(3, items), At(5, items));
    EndReached(data, items);
  }

  /** A length that takes the index past the largest 32-bit number makes it overflow. */
  lemma LengthOverflows(n: nat)
    requires n <= 0x7fff_ffff < n + |Decimal(n)| + 2
    ensures var data := "$" + Decimal(n) + "\r\n"; Steps(data, Start(data), 1) == Overflowed
  {
    var digits := Decimal(n);
    var data := "$" + digits + "\r\n";
    var end := 1 + |digits|;
    assert Has(data, 0, "$" + digits + "\r\n");
    LengthEnd(data, 0, n);
    NumberRead(n, "\r");
    assert data[0] == '$' && data[1..end + 1] == digits + "\r";
    assert Start(data) == At(0, []);
    hide Decimal, Find, FromChars, Start, Step;
    BulkStep(data, 0, n, end, []);
    OneStep(data, Start(data));
  }

  // --- No line end -----------------------------------------------------------------------------------

  lemma {:induction false} NothingFound(data: Bytes, from: nat)
    requires from <= |data| && forall k: nat | k < |data| :: !LineEnd(data, k)
    ensures Find(data, from) == |data|
    decreases |data| - from
  {
    if from + 2 <= |data| {
      NothingFound(data, from + 1);
    }
  }

  /** One of the bytes that the scanner stops at is there. */
  predicate HasKind(data: Bytes) {
    '+' in data || '-' in data || ':' in data || '$' in data || '*' in data
  }

  lemma {:induction false} ScannedWithoutEnd(data: Bytes, i: nat) returns (n: nat)
    requires i <= |data| && forall k: nat | k < |data| :: !LineEnd(data, k)
    ensures Steps(data, At(i, []), n) == Returned(if HasKind(data[i..]) then [Error] else [])
    decreases |data| - i
  {
    hide Find;
    n := 1;
    OneStep(data, At(i, []));
    if i == |data| {
      PastTheEnd(data, At(i, []));
      hide Step, Steps;
    } else if data[i] in {'+', '-', ':', '$', '*'} {
      assert data[i..][0] == data[i];
      NothingFound(data, i);
      NothingFound(data, 0);
      ErrorStep(data, i, []);
      assert [] + [Error] == [Error];
      hide Step, Steps;
    } else {
      PlainStep(data, i, []);
      hide Step, Steps;
      assert data[i..] == [data[i]] + data[i + 1..];
      var more := ScannedWithoutEnd(data, i + 1);
      StepsAdd(data, At(i, []), 1, more);
      n := 1 + more;
    }
  }

  lemma OneStep(data: Bytes, s: Scan)
    ensures Steps(data, s, 1) == Step(data, s)
  {
    assert Steps(data, s, 0) == s;
  }

  /** Without a line end the result is an error if one of the five bytes is there, and nothing if none is. */
  lemma LineEndMissing(data: Bytes)
    requires data != "PING" && forall k: nat | k < |data| :: !LineEnd(data, k)
    ensures Returns(data, if HasKind(data) then [Error] else [])
  {
    assert data[0..] == data;
    assert Start(data) == At(0, []);
    var n := ScannedWithoutEnd(data, 0);
    hide Steps, HasKind, Start;
    assert Steps(data, Start(data), n) == Returned(if HasKind(data) then [Error] else []);
  }

  // --- Known requests --------------------------------------------------------------------------------

  lemma SetBulks()
    ensures BulkString("SET") == "$3\r\nSET\r\n"
    ensures BulkString("mykey") == "$5\r\nmykey\r\n"
    ensures BulkString("myvalue") == "$7\r\nmyvalue\r\n"
    ensures Header(3) == "*3\r\n"
  {
    assert Decimal(3) == "3" && Decimal(5) == "5" && Decimal(7) == "7";
    hide Decimal;
  }

  lemma ThreeBulks(a: Bytes, b: Bytes, c: Bytes)
    ensures Request([a, b, c]) == Header(3) + (BulkString(a) + (BulkString(b) + BulkString(c)))
  {
    hide BulkString, Header;
    assert [a, b, c][1..] == [b, c] && [b, c][1..] == [c] && [c][1..] == [];
    assert BulkString(c) + [] == BulkString(c);
    assert BulkStrings([c]) == BulkString(c) + BulkStrings([]);
    assert BulkStrings([b, c]) == BulkString(b) + BulkStrings([c]);
  }

  lemma SetRequest()
    ensures Request(["SET", "mykey", "myvalue"]) == "*3\r\n$3\r\nSET\r\n$5\r\nmykey\r\n$7\r\nmyvalue\r\n"
  {
    SetBulks();
    ThreeBulks("SET", "mykey", "myvalue");
    hide *;
  }

  lemma PlainParsed(args: seq<Bytes>, data: Bytes, texts: seq<Bytes>) returns (items: seq<Item>)
    requires data == Request(args) && |data| < INT_LIMIT && (forall a | a in args :: EndsPlain(a))
    requires texts == [Decimal(|args|)] + args
    ensures Returns(data, items) && ReadAs(data, items, texts)
  {
    SpelledPlain(args);
    assert forall a | a in args :: !EndsInStar(a);
    hide Request, Returns, ReadAs, SpelledAll, Decimal, EndsPlain, EndsInStar;
    items := RequestParsed(args);
  }

  lemma SetTexts(args: seq<Bytes>, texts: seq<Bytes>)
    requires args == ["SET", "mykey", "myvalue"] && texts == ["3", "SET", "mykey", "myvalue"]
    ensures (forall a | a in args :: EndsPlain(a)) && texts == [Decimal(|args|)] + args
  {
    assert Decimal(3) == "3";
  }

  /** The request and the result of the scanner's own test. */
  lemma SetRequestParsed(data: Bytes, texts: seq<Bytes>) returns (items: seq<Item>)
    requires data == "*3\r\n$3\r\nSET\r\n$5\r\nmykey\r\n$7\r\nmyvalue\r\n"
    requires texts == ["3", "SET", "mykey", "myvalue"]
    ensures Returns(data, items) && ReadAs(data, items, texts)
  {
    var args: seq<Bytes> := ["SET", "mykey", "myvalue"];
    SetRequest();
    SetTexts(args, texts);
    hide *;
    items := PlainParsed(args, data, texts);
  }

  /** Decimals have their digits in the usual order, the most significant first. */
  lemma DecimalKnown()
    ensures Decimal(9_876_543_210) == "9876543210" && Decimal(0) == "0"
  {
    hide DigitsValue;
    assert Decimal(9) == "9" && Decimal(98) == "98" && Decimal(987) == "987";
    assert Decimal(9876) == "9876" && Decimal(98765) == "98765" && Decimal(987654) == "987654";
    assert Decimal(9876543) == "9876543" && Decimal(98765432) == "98765432" && Decimal(987654321) == "987654321";
  }

  lemma UserBulks()
    ensures BulkString("GET") == "$3\r\nGET\r\n"
    ensures BulkString("user:") == "$5\r\nuser:\r\n"
    ensures Header(2) == "*2\r\n"
  {
    assert Decimal(2) == "2" && Decimal(3) == "3" && Decimal(5) == "5";
    hide Decimal;
  }

  lemma TwoBulks(a: Bytes, b: Bytes)
    ensures Request([a, b]) == Header(2) + (BulkString(a) + BulkString(b))
  {
    hide BulkString, Header;
    assert [a, b][1..] == [b] && [b][1..] == [];
    assert BulkString(b) + [] == BulkString(b);
    assert BulkStrings([b]) == BulkString(b) + BulkStrings([]);
  }

  lemma UserRequest()
    ensures Request(["GET", "user:"]) == "*2\r\n$3\r\nGET\r\n$5\r\nuser:\r\n"
  {
    UserBulks();
    TwoBulks("GET", "user:");
    hide *;
  }

  lemma SpelledTwo(a: Bytes, b: Bytes)
    ensures SpelledAll([a, b]) == Spelled(a) + Spelled(b)
  {
    hide Spelled;
    assert [a, b][1..] == [b] && [b][1..] == [];
    assert SpelledAll([b]) == Spelled(b) + SpelledAll([]);
    assert Spelled(b) + [] == Spelled(b);
  }

  lemma SpelledParts()
    ensures Decimal(2) == "2" && Spelled("GET") == ["GET"] && Spelled("user:") == ["user:", "\r"]
    ensures !EndsInStar("GET") && !EndsInStar("user:")
  {
  }

  lemma FourTexts(a: Bytes, b: Bytes, c: Bytes, d: Bytes)
    ensures [a] + ([b] + [c, d]) == [a, b, c, d]
  {
  }

  lemma UserTexts(args: seq<Bytes>, texts: seq<Bytes>)
    requires args == ["GET", "user:"] && texts == ["2", "GET", "user:", "\r"]
    ensures (forall a | a in args :: !EndsInStar(a)) && texts == [Decimal(|args|)] + SpelledAll(args)
  {
    hide *;
    SpelledParts();
    SpelledTwo("GET", "user:");
    FourTexts("2", "GET", "user:", "\r");
  }

  /** An argument that ends in a colon, and the view that it adds. */
  lemma ColonAddsAView(data: Bytes, texts: seq<Bytes>) returns (items: seq<Item>)
    requires data == "*2\r\n$3\r\nGET\r\n$5\r\nuser:\r\n" && texts == ["2", "GET", "user:", "\r"]
    ensures Returns(data, items) && ReadAs(data, items, texts)
  {
    var args: seq<Bytes> := ["GET", "user:"];
    UserRequest();
    UserTexts(args, texts);
    hide *;
    items := RequestParsed(args);
  }
}
