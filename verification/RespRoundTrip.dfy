/**
 Requests in the array-of-bulk-strings form of the RESP specification, sections "Arrays" and "Bulk strings", and
 what the scanner makes of them. The scan resumes on the last byte of each argument, so that byte decides.
 */
module RespRoundTrip {

  import opened RespParser

  // --- The encoding ----------------------------------------------------------------------------------

  function Decimal(n: nat): Bytes {
    if n < 10 then [('0' as int + n) as char] else Decimal(n / 10) + [('0' as int + n % 10) as char]
  }

  function BulkString(arg: Bytes): Bytes {
    "$" + Decimal(|arg|) + "\r\n" + arg + "\r\n"
  }

  function BulkStrings(args: seq<Bytes>): Bytes {
    if args == [] then [] else BulkString(args[0]) + BulkStrings(args[1..])
  }

  function Header(count: nat): Bytes {
    "*" + Decimal(count) + "\r\n"
  }

  function Request(args: seq<Bytes>): Bytes {
    Header(|args|) + BulkStrings(args)
  }

  // --- What the views say ----------------------------------------------------------------------------

  predicate InRange(data: Bytes, item: Item) {
    item.View? ==> 0 <= item.start <= item.start + item.length <= |data|
  }

  function Text(data: Bytes, item: Item): Bytes
    requires InRange(data, item)
  {
    match item
    case View(start, length) => data[start..start + length]
    case Ping => "PING"
    case Error => "Error"
  }

  ghost predicate ReadAs(data: Bytes, items: seq<Item>, texts: seq<Bytes>) {
    && |items| == |texts|
    && forall k: nat | k < |items| :: InRange(data, items[k]) && Text(data, items[k]) == texts[k]
  }

  /** What one argument turns into: itself, and one more view when its last byte starts a reply type. */
  function Spelled(arg: Bytes): seq<Bytes> {
    if arg == [] then [arg]
    else if arg[|arg| - 1] in {'+', '-', ':'} then [arg, "\r"]
    else if arg[|arg| - 1] == '$' then [arg, ""]
    else [arg]
  }

  function SpelledAll(args: seq<Bytes>): seq<Bytes> {
    if args == [] then [] else Spelled(args[0]) + SpelledAll(args[1..])
  }

  predicate EndsInStar(arg: Bytes) {
    arg != [] && arg[|arg| - 1] == '*'
  }

  predicate EndsPlain(arg: Bytes) {
    arg == [] || arg[|arg| - 1] !in {'+', '-', ':', '$', '*'}
  }

  // --- Numbers ---------------------------------------------------------------------------------------

  lemma {:induction false} DecimalIsDigits(n: nat)
    ensures Decimal(n) != []
    ensures forall c | c in Decimal(n) :: IsDigit(c)
    ensures DigitsValue(Decimal(n)) == n
  {
    if n < 10 {
      assert Decimal(n)[..0] == [];
    } else {
      DecimalIsDigits(n / 10);
      assert Decimal(n)[..|Decimal(n)| - 1] == Decimal(n / 10);
    }
  }

  lemma {:induction false} PrefixOfDigits(d: Bytes, rest: Bytes)
    requires forall c | c in d :: IsDigit(c)
    requires rest == [] || !IsDigit(rest[0])
    ensures DigitPrefix(d + rest) == d
  {
    if d == [] {
      assert d + rest == rest;
    } else {
      PrefixOfDigits(d[1..], rest);
      assert (d + rest)[1..] == d[1..] + rest;
      assert IsDigit((d + rest)[0]);
    }
  }

  /** What does not begin with a digit. */
  predicate NoDigitAhead(rest: Bytes) {
    rest == [] || !('0' <= rest[0] <= '9')
  }

  /** A number in front of anything but a digit is read back if it fits 32 bits, with its sign; else it reads as zero. */
  lemma NumberRead(n: nat, rest: Bytes)
    requires NoDigitAhead(rest)
    ensures FromChars(Decimal(n) + rest) == if n <= 0x7fff_ffff then n else 0
    ensures FromChars("-" + (Decimal(n) + rest)) == 0 - (if n <= 0x8000_0000 then n else 0)
    ensures rest == [] || rest[0] != '-' ==> FromChars(rest) == 0
  {
    DecimalIsDigits(n);
    assert Decimal(n)[0] in Decimal(n);
    PrefixOfDigits(Decimal(n), rest);
    assert ("-" + (Decimal(n) + rest))[1..] == Decimal(n) + rest;
    assert DigitPrefix(rest) == [];
  }

  lemma NumberReadBack(n: nat)
    requires n < INT_LIMIT
    ensures FromChars(Decimal(n) + "\r") == n
  {
    NumberRead(n, "\r");
  }

  // --- Where the scan stops --------------------------------------------------------------------------

  /** The bytes at a place. */
  predicate Has(data: Bytes, i: nat, part: Bytes) {
    i + |part| <= |data| && data[i..i + |part|] == part
  }

  lemma HasAt(data: Bytes, i: nat, part: Bytes, k: nat)
    requires Has(data, i, part) && k < |part|
    ensures data[i + k] == part[k]
  {
    assert data[i..i + |part|][k] == part[k];
  }

  lemma HasSplit(data: Bytes, i: nat, a: Bytes, b: Bytes)
    requires Has(data, i, a + b)
    ensures Has(data, i, a) && Has(data, i + |a|, b)
  {
    assert data[i..i + |a|] == (a + b)[..|a|];
    assert data[i + |a|..i + |a| + |b|] == (a + b)[|a|..];
  }

  /** The line end that follows a run of bytes without carriage returns is the one that is found. */
  lemma FindAfter(data: Bytes, i: nat, part: Bytes)
    requires Has(data, i, part + "\r\n")
    requires forall c | c in part :: c != '\r'
    ensures Find(data, i) == i + |part|
  {
    HasSplit(data, i, part, "\r\n");
    HasAt(data, i + |part|, "\r\n", 0);
    HasAt(data, i + |part|, "\r\n", 1);
    forall k: nat | i <= k < i + |part| ensures data[k] != '\r' {
      HasAt(data, i, part, k - i);
      assert part[k - i] in part;
    }
    assert LineEnd(data, i + |part|);
  }

  ghost predicate Leads(data: Bytes, s: Scan, t: Scan) {
    exists n: nat :: n > 0 && Steps(data, s, n) == t
  }

  lemma LeadsOne(data: Bytes, s: Scan)
    ensures Leads(data, s, Step(data, s))
  {
    assert Steps(data, s, 1) == Step(data, Steps(data, s, 0));
  }

  lemma LeadsOn(data: Bytes, s: Scan, t: Scan, u: Scan)
    requires Leads(data, s, t) && Leads(data, t, u)
    ensures Leads(data, s, u)
  {
    var n: nat :| n > 0 && Steps(data, s, n) == t;
    var m: nat :| m > 0 && Steps(data, t, m) == u;
    StepsAdd(data, s, n, m);
  }

  // --- One argument ----------------------------------------------------------------------------------

  lemma BulkStringParts(data: Bytes, i: nat, arg: Bytes)
    requires Has(data, i, BulkString(arg))
    ensures var p := i + 1 + |Decimal(|arg|)| + 2;
            && Has(data, i, "$" + Decimal(|arg|) + "\r\n")
            && Has(data, p, arg)
            && Has(data, p + |arg|, "\r\n")
            && p + |arg| + 2 == i + |BulkString(arg)|
  {
    var head := "$" + Decimal(|arg|) + "\r\n";
    assert BulkString(arg) == head + (arg + "\r\n");
    HasSplit(data, i, head, arg + "\r\n");
    HasSplit(data, i + |head|, arg, "\r\n");
  }

  // The rounds of the loop, by the byte the scan stands on.

  lemma PlainRound(data: Bytes, i: nat, items: seq<Item>)
    requires i < |data| && !IsLine(data[i]) && data[i] != '$' && data[i] != '*'
    ensures Leads(data, At(i, items), At(i + 1, items))
  {
    LeadsOne(data, At(i, items));
    PlainStep(data, i, items);
  }

  lemma LineRound(data: Bytes, i: nat, items: seq<Item>)
    requires i + 3 <= |data| && IsLine(data[i]) && data[i + 1] == '\r' && data[i + 2] == '\n'
    ensures Leads(data, At(i, items), At(i + 3, items + [View(i + 1, 1)]))
  {
    assert LineEnd(data, i + 1) && !LineEnd(data, i);
    assert Find(data, i) == i + 1;
    hide Leads, Find, Step;
    LineStep(data, i, i + 1, items);
    LeadsOne(data, At(i, items));
  }

  lemma BulkRound(data: Bytes, i: nat, number: nat, end: nat, items: seq<Item>)
    requires i < |data| < INT_LIMIT && data[i] == '$' && Find(data, i) == end < |data|
    requires FromChars(data[i + 1..end + 1]) == number && end + number + 1 < INT_LIMIT
    ensures Leads(data, At(i, items), At(end + number + 1, items + [View(end + 2, number)]))
  {
    hide Leads, Find, FromChars, AsSize, Step;
    BulkStep(data, i, number, end, items);
    LeadsOne(data, At(i, items));
  }

  lemma EmptyBulkRound(data: Bytes, i: nat, items: seq<Item>)
    requires i + 3 <= |data| < INT_LIMIT && data[i] == '$' && data[i + 1] == '\r' && data[i + 2] == '\n'
    ensures Leads(data, At(i, items), At(i + 3, items + [View(i + 3, 0)]))
  {
    assert LineEnd(data, i + 1) && !LineEnd(data, i);
    assert Find(data, i) == i + 1;
    assert data[i + 1..i + 2] == "\r";
    assert FromChars("\r") == 0;
    BulkRound(data, i, 0, i + 1, items);
    PlainRound(data, i + 2, items + [View(i + 3, 0)]);
    hide Leads;
    LeadsOn(data, At(i, items), At(i + 2, items + [View(i + 3, 0)]), At(i + 3, items + [View(i + 3, 0)]));
  }

  /** From the "$" of an argument the scan reads its length, pushes its payload, and stands on its last byte. */
  lemma LengthRound(data: Bytes, i: nat, arg: Bytes, items: seq<Item>)
    requires |data| < INT_LIMIT && Has(data, i, BulkString(arg))
    ensures var p := i + 1 + |Decimal(|arg|)| + 2;
            Leads(data, At(i, items), At(p + |arg| - 1, items + [View(p, |arg|)]))
  {
    hide Has, Leads, Find, FromChars, BulkString, Decimal;
    BulkStringParts(data, i, arg);
    PayloadBytes(data, i, arg);
    LengthBytes(data, i, arg);
    LengthEnd(data, i, |arg|);
    NumberReadBack(|arg|);
    LengthRoundAt(data, i, i + 1 + |Decimal(|arg|)|, Decimal(|arg|) + "\r", |arg|, items);
  }

  lemma LengthRoundAt(data: Bytes, i: nat, end: nat, digits: Bytes, number: nat, items: seq<Item>)
    requires end + number + 4 <= |data| < INT_LIMIT && i <= end && data[i] == '$' && Find(data, i) == end
    requires data[i + 1..end + 1] == digits && FromChars(digits) == number
    ensures Leads(data, At(i, items), At(end + number + 1, items + [View(end + 2, number)]))
  {
    hide *;
    BulkRound(data, i, number, end, items);
  }

  lemma LengthEnd(data: Bytes, i: nat, n: nat)
    requires Has(data, i, "$" + Decimal(n) + "\r\n")
    ensures Find(data, i) == i + 1 + |Decimal(n)|
  {
    DecimalIsDigits(n);
    hide Decimal, Has, Find;
    FindAfter(data, i, "$" + Decimal(n));
  }

  lemma Slices(data: Bytes, i: nat, j: nat, a: nat, b: nat)
    requires i <= j <= |data| && a <= b <= j - i
    ensures data[i..j][a..b] == data[i + a..i + b]
  {
    var part := data[i..j];
    assert forall k: nat | k < b - a :: part[a..b][k] == part[a + k] == data[i + a + k];
  }

  lemma LengthBytes(data: Bytes, i: nat, arg: Bytes)
    requires Has(data, i, "$" + Decimal(|arg|) + "\r\n")
    ensures var digits := Decimal(|arg|);
            i + |digits| + 3 <= |data| && data[i] == '$' && data[i + 1..i + |digits| + 2] == digits + "\r"
  {
    var digits := Decimal(|arg|);
    hide Decimal;
    var part := "$" + digits + "\r\n";
    var line := data[i..i + |part|];
    assert line == part && |part| == |digits| + 3;
    assert line[0] == data[i];
    Slices(data, i, i + |part|, 1, |digits| + 2);
    assert line[1..|digits| + 2] == digits + "\r";
  }

  /** What surrounds the payload of an argument. */
  lemma PayloadBytes(data: Bytes, i: nat, arg: Bytes)
    requires Has(data, i, BulkString(arg))
    ensures var p := i + 1 + |Decimal(|arg|)| + 2;
            && p + |arg| + 2 == i + |BulkString(arg)| <= |data|
            && data[p - 1] == '\n' && data[p..p + |arg|] == arg
            && data[p + |arg|] == '\r' && data[p + |arg| + 1] == '\n'
  {
    var head := "$" + Decimal(|arg|) + "\r\n";
    var p := i + 1 + |Decimal(|arg|)| + 2;
    BulkStringParts(data, i, arg);
    hide Decimal;
    HasAt(data, i, head, |head| - 1);
    HasAt(data, p + |arg|, "\r\n", 0);
    HasAt(data, p + |arg|, "\r\n", 1);
  }

  /** The rounds after the length line, from the last byte of the payload on. */
  function Extra(arg: Bytes, end: nat): seq<Item> {
    if arg == [] then []
    else if arg[|arg| - 1] in {'+', '-', ':'} then [View(end, 1)]
    else if arg[|arg| - 1] == '$' then [View(end + 2, 0)]
    else []
  }

  lemma LineEndRounds(data: Bytes, i: nat, items: seq<Item>)
    requires i + 2 <= |data| && data[i] == '\r' && data[i + 1] == '\n'
    ensures Leads(data, At(i, items), At(i + 2, items))
  {
    PlainRound(data, i, items);
    PlainRound(data, i + 1, items);
    hide Leads;
    LeadsOn(data, At(i, items), At(i + 1, items), At(i + 2, items));
  }

  lemma LastByteRounds(data: Bytes, p: nat, arg: Bytes, items: seq<Item>)
    requires 0 < p && p + |arg| + 2 <= |data| < INT_LIMIT && !EndsInStar(arg)
    requires data[p - 1] == '\n' && data[p..p + |arg|] == arg
    requires data[p + |arg|] == '\r' && data[p + |arg| + 1] == '\n'
    ensures Leads(data, At(p + |arg| - 1, items), At(p + |arg| + 2, items + Extra(arg, p + |arg|)))
  {
    var i := p + |arg| - 1;
    hide Leads;
    if arg != [] {
      assert data[i] == arg[|arg| - 1];
    }
    if IsLine(data[i]) {
      LineRound(data, i, items);
    } else if data[i] == '$' {
      EmptyBulkRound(data, i, items);
    } else {
      PlainRound(data, i, items);
      LineEndRounds(data, i + 1, items);
      LeadsOn(data, At(i, items), At(i + 1, items), At(i + 3, items));
      assert items + [] == items;
    }
  }

  function Pushed(i: nat, arg: Bytes): seq<Item> {
    var p := i + 1 + |Decimal(|arg|)| + 2;
    [View(p, |arg|)] + Extra(arg, p + |arg|)
  }

  /** The scan of one argument that does not end in "*". */
  lemma ArgumentScanned(data: Bytes, i: nat, arg: Bytes, items: seq<Item>)
    requires |data| < INT_LIMIT && Has(data, i, BulkString(arg)) && !EndsInStar(arg)
    ensures Leads(data, At(i, items), At(i + |BulkString(arg)|, items + Pushed(i, arg)))
    ensures ReadAs(data, Pushed(i, arg), Spelled(arg))
  {
    hide Has, Leads, BulkString, Decimal, Extra, ReadAs, Spelled;
    var p := i + 1 + |Decimal(|arg|)| + 2;
    PayloadBytes(data, i, arg);
    LengthRound(data, i, arg, items);
    PushedRead(data, p, arg);
    LastByteRounds(data, p, arg, items + [View(p, |arg|)]);
    assert items + [View(p, |arg|)] + Extra(arg, p + |arg|) == items + Pushed(i, arg);
    LeadsOn(data, At(i, items), At(p + |arg| - 1, items + [View(p, |arg|)]), At(p + |arg| + 2, items + Pushed(i, arg)));
  }

  lemma PushedRead(data: Bytes, p: nat, arg: Bytes)
    requires p + |arg| + 2 <= |data| && data[p..p + |arg|] == arg && data[p + |arg|] == '\r'
    ensures !EndsInStar(arg) ==> ReadAs(data, [View(p, |arg|)] + Extra(arg, p + |arg|), Spelled(arg))
  {
    assert data[p + |arg|..p + |arg| + 1] == "\r";
  }

  // --- Whole requests --------------------------------------------------------------------------------

  lemma ReadAsNothing(data: Bytes)
    ensures ReadAs(data, [], [])
  {
  }

  lemma ReadAsConcat(data: Bytes, a: seq<Item>, b: seq<Item>, s: seq<Bytes>, t: seq<Bytes>)
    requires ReadAs(data, a, s) && ReadAs(data, b, t)
    ensures ReadAs(data, a + b, s + t)
  {
  }

  function PushedAll(i: nat, args: seq<Bytes>): seq<Item>
    decreases |args|
  {
    if args == [] then [] else Pushed(i, args[0]) + PushedAll(i + |BulkString(args[0])|, args[1..])
  }

  /** Reached at once, or after some rounds. */
  ghost predicate Reaches(data: Bytes, s: Scan, t: Scan) {
    s == t || Leads(data, s, t)
  }

  lemma {:induction false} ArgumentsScanned(data: Bytes, i: nat, args: seq<Bytes>, items: seq<Item>)
    requires |data| < INT_LIMIT && Has(data, i, BulkStrings(args))
    requires forall a | a in args :: !EndsInStar(a)
    ensures Reaches(data, At(i, items), At(i + |BulkStrings(args)|, items + PushedAll(i, args)))
    ensures ReadAs(data, PushedAll(i, args), SpelledAll(args))
    decreases |args|
  {
    hide Has, Leads, BulkString, Pushed, ReadAs, Spelled, EndsInStar;
    if args == [] {
      assert items + [] == items;
      ReadAsNothing(data);
    } else {
      var next := i + |BulkString(args[0])|;
      HasSplit(data, i, BulkString(args[0]), BulkStrings(args[1..]));
      ArgumentScanned(data, i, args[0], items);
      ArgumentsScanned(data, next, args[1..], items + Pushed(i, args[0]));
      ReadAsConcat(data, Pushed(i, args[0]), PushedAll(next, args[1..]), Spelled(args[0]), SpelledAll(args[1..]));
      assert items + Pushed(i, args[0]) + PushedAll(next, args[1..]) == items + PushedAll(i, args);
      var s, t, u := At(i, items), At(next, items + Pushed(i, args[0])), At(i + |BulkStrings(args)|, items + PushedAll(i, args));
      if t != u { LeadsOn(data, s, t, u); }
    }
  }

  lemma RequestParts(args: seq<Bytes>)
    ensures var data, h := Request(args), |Header(|args|)|;
            && Has(data, 0, Header(|args|)) && Has(data, h, BulkStrings(args))
            && h + |BulkStrings(args)| == |data|
  {
    var data, h := Request(args), |Header(|args|)|;
    assert data[0..h] == Header(|args|);
    assert data[h..|data|] == BulkStrings(args);
  }

  /** The scan starts with the count and then stands at the first argument. */
  lemma HeaderScanned(args: seq<Bytes>)
    requires |Request(args)| < INT_LIMIT
    ensures var data, h := Request(args), |Header(|args|)|;
            && 2 <= h && Find(data, 0) == h - 2 < |data|
            && Leads(data, Start(data), At(h, [View(1, h - 3)]))
            && ReadAs(data, [View(1, h - 3)], [Decimal(|args|)])
  {
    RequestParts(args);
    HeaderScannedAt(Request(args), |args|);
    assert |Header(|args|)| == 3 + |Decimal(|args|)|;
    hide Leads, Find, Start, Decimal, Request, Header, ReadAs;
  }

  lemma HeaderScannedAt(data: Bytes, count: nat)
    requires |data| < INT_LIMIT && Has(data, 0, Header(count))
    ensures var n := |Decimal(count)|;
            && Find(data, 0) == 1 + n < |data|
            && Leads(data, Start(data), At(3 + n, [View(1, n)]))
            && ReadAs(data, [View(1, n)], [Decimal(count)])
  {
    CountBytes(data, Decimal(count));
    CountEnd(data, count);
    CountScanned(data, Decimal(count), [View(1, |Decimal(count)|)]);
    hide Leads, Find, Start, Decimal;
  }

  lemma CountEnd(data: Bytes, n: nat)
    requires Has(data, 0, "*" + Decimal(n) + "\r\n")
    ensures Find(data, 0) == 1 + |Decimal(n)|
  {
    DecimalIsDigits(n);
    hide Decimal, Has, Find;
    FindAfter(data, 0, "*" + Decimal(n));
  }

  lemma CountScanned(data: Bytes, digits: Bytes, items: seq<Item>)
    requires |digits| + 3 <= |data| && data[0] == '*' && Find(data, 0) == 1 + |digits|
    requires |data| < INT_LIMIT && items == [View(1, |digits|)]
    ensures Leads(data, Start(data), At(3 + |digits|, items))
  {
    assert Start(data) == At(0, []);
    hide Find, Step, Leads, Start;
    StarStep(data, 0, 1 + |digits|, []);
    assert [] + [View(1, |digits|)] == items;
    LeadsOne(data, At(0, []));
  }

  lemma CountBytes(data: Bytes, digits: Bytes)
    requires Has(data, 0, "*" + digits + "\r\n")
    ensures |digits| + 3 <= |data| && data[0] == '*' && data[1..1 + |digits|] == digits
  {
    var part := "*" + digits + "\r\n";
    assert data[0..|part|] == part;
    Slices(data, 0, |part|, 1, 1 + |digits|);
    assert part[1..1 + |digits|] == digits;
    HasAt(data, 0, part, 0);
  }

  /**
   A request whose arguments do not end in "*" is parsed: the count, then each argument, and after an argument
   that ends in one of + - : $ one view more.
   */
  lemma RequestParsed(args: seq<Bytes>) returns (items: seq<Item>)
    requires |Request(args)| < INT_LIMIT
    requires forall a | a in args :: !EndsInStar(a)
    ensures Returns(Request(args), items)
    ensures ReadAs(Request(args), items, [Decimal(|args|)] + SpelledAll(args))
  {
    var h := |Header(|args|)|;
    RequestParts(args);
    HeaderScanned(args);
    items := RestParsed(Request(args), h, args, [View(1, h - 3)], [Decimal(|args|)]);
  }

  lemma RestParsed(data: Bytes, h: nat, args: seq<Bytes>, first: seq<Item>, texts: seq<Bytes>) returns (items: seq<Item>)
    requires |data| < INT_LIMIT && Has(data, h, BulkStrings(args)) && h + |BulkStrings(args)| == |data|
    requires forall a | a in args :: !EndsInStar(a)
    requires Leads(data, Start(data), At(h, first)) && ReadAs(data, first, texts)
    ensures Returns(data, items) && ReadAs(data, items, texts + SpelledAll(args))
  {
    hide *;
    ArgumentsScanned(data, h, args, first);
    items := first + PushedAll(h, args);
    ReadAsConcat(data, first, PushedAll(h, args), texts, SpelledAll(args));
    LeadsOnward(data, Start(data), At(h, first), At(|data|, items));
    EndReached(data, items);
  }

  lemma EndReached(data: Bytes, items: seq<Item>)
    requires Leads(data, Start(data), At(|data|, items))
    ensures Returns(data, items)
  {
    hide Step, Leads;
    PastTheEnd(data, At(|data|, items));
    LeadsOne(data, At(|data|, items));
    LeadsOn(data, Start(data), At(|data|, items), Returned(items));
    LeadsReturns(data, items);
  }

  lemma LeadsOnward(data: Bytes, s: Scan, t: Scan, u: Scan)
    requires Leads(data, s, t) && Reaches(data, t, u)
    ensures Leads(data, s, u)
  {
    hide Leads;
    if t != u { LeadsOn(data, s, t, u); }
  }

  lemma LeadsReturns(data: Bytes, items: seq<Item>)
    requires Leads(data, Start(data), Returned(items))
    ensures Returns(data, items)
  {
  }

  // --- Arguments that end in "*" ---------------------------------------------------------------------

  lemma {:induction false} BulkStringsSplit(args: seq<Bytes>, k: nat)
    requires k < |args|
    ensures BulkStrings(args) == BulkStrings(args[..k]) + (BulkString(args[k]) + BulkStrings(args[k + 1..]))
    decreases k
  {
    if k != 0 {
      BulkStringsSplit(args[1..], k - 1);
      assert args[..k][1..] == args[1..][..k - 1];
      assert args[1..][k..] == args[k + 1..];
      hide BulkString;
    }
  }

  /** The first argument that ends in "*". */
  ghost predicate FirstStarAt(args: seq<Bytes>, k: nat) {
    k < |args| && EndsInStar(args[k]) && forall a | a in args[..k] :: !EndsInStar(a)
  }

  lemma LeadsIn(data: Bytes, s: Scan, t: Scan) returns (m: nat)
    requires Leads(data, s, t)
    ensures 0 < m && Steps(data, s, m) == t
  {
    m :| m > 0 && Steps(data, s, m) == t;
  }

  /** From the first argument on, the scan comes back to the first argument. */
  lemma ScanComesBack(args: seq<Bytes>, k: nat, items: seq<Item>) returns (items1: seq<Item>)
    requires |Request(args)| < INT_LIMIT
    requires FirstStarAt(args, k)
    ensures Leads(Request(args), At(|Header(|args|)|, items), At(|Header(|args|)|, items1))
  {
    StarParts(args, k);
    HeaderScanned(args);
    items1 := ScanComesBackAt(Request(args), |Header(|args|)|, args[..k], args[k], items);
    hide *;
  }

  lemma ScanComesBackAt(data: Bytes, h: nat, before: seq<Bytes>, arg: Bytes, items: seq<Item>) returns (items1: seq<Item>)
    requires |data| < INT_LIMIT && 2 <= h && Find(data, 0) == h - 2 < |data|
    requires Has(data, h, BulkStrings(before)) && Has(data, h + |BulkStrings(before)|, BulkString(arg))
    requires EndsInStar(arg) && forall a | a in before :: !EndsInStar(a)
    ensures Leads(data, At(h, items), At(h, items1))
  {
    hide *;
    var i := h + |BulkStrings(before)|;
    ArgumentsScanned(data, h, before, items);
    var items0 := items + PushedAll(h, before);
    items1 := StarScanned(data, i, h, arg, items0);
    ReachesOn(data, At(h, items), At(i, items0), At(h, items1));
  }

  lemma StarParts(args: seq<Bytes>, k: nat)
    requires FirstStarAt(args, k)
    ensures EndsInStar(args[k]) && forall a | a in args[..k] :: !EndsInStar(a)
    ensures var data, h := Request(args), |Header(|args|)|;
            && Has(data, h, BulkStrings(args[..k]))
            && Has(data, h + |BulkStrings(args[..k])|, BulkString(args[k]))
  {
    RequestParts(args);
    BulkStringsSplit(args, k);
    HasSplitTwice(Request(args), |Header(|args|)|, BulkStrings(args[..k]), BulkString(args[k]), BulkStrings(args[k + 1..]));
    hide Header, Request, BulkStrings, BulkString, Has;
  }

  lemma HasSplitTwice(data: Bytes, i: nat, a: Bytes, b: Bytes, c: Bytes)
    requires Has(data, i, a + (b + c))
    ensures Has(data, i, a) && Has(data, i + |a|, b)
  {
    hide Has;
    HasSplit(data, i, a, b + c);
    HasSplit(data, i + |a|, b, c);
  }

  lemma ReachesOn(data: Bytes, s: Scan, t: Scan, u: Scan)
    requires Reaches(data, s, t) && Leads(data, t, u)
    ensures Leads(data, s, u)
  {
    hide Leads;
    if s != t { LeadsOn(data, s, t, u); }
  }

  lemma StarScanned(data: Bytes, i: nat, h: nat, arg: Bytes, items: seq<Item>) returns (items1: seq<Item>)
    requires |data| < INT_LIMIT && Has(data, i, BulkString(arg)) && EndsInStar(arg)
    requires 2 <= h && Find(data, 0) == h - 2 < |data|
    ensures Leads(data, At(i, items), At(h, items1))
  {
    hide Has, Leads, Decimal, BulkString, Find, Step;
    var p := i + 1 + |Decimal(|arg|)| + 2;
    PayloadBytes(data, i, arg);
    LengthRound(data, i, arg, items);
    var end := p + |arg| - 1;
    assert data[p..p + |arg|][|arg| - 1] == data[end];
    var items0 := items + [View(p, |arg|)];
    StarStep(data, end, h - 2, items0);
    LeadsOne(data, At(end, items0));
    items1 := items0 + [View(end + 1, AsSize(h - 2 - end - 1))];
    LeadsOn(data, At(i, items), At(end, items0), At(h, items1));
  }

  lemma StaysAt(data: Bytes, s: Scan, t: Scan, m: nat, n: nat)
    requires Steps(data, s, m) == t && t.At?
    requires n <= m || Steps(data, t, n - m).At?
    ensures Steps(data, s, n).At?
  {
    hide Step;
    if n <= m {
      StepsAdd(data, s, n, m - n);
      if !Steps(data, s, n).At? {
        Settled(data, Steps(data, s, n), m - n);
      }
    } else {
      StepsAdd(data, s, m, n - m);
    }
  }

  lemma {:induction false} NeverLeaves(args: seq<Bytes>, data: Bytes, h: nat, k: nat, items: seq<Item>, n: nat)
    requires |data| < INT_LIMIT && data == Request(args) && h == |Header(|args|)|
    requires FirstStarAt(args, k)
    ensures Steps(data, At(h, items), n).At?
    decreases n
  {
    hide *;
    var items1 := ScanComesBack(args, k, items);
    var m := LeadsIn(data, At(h, items), At(h, items1));
    if n > m {
      NeverLeaves(args, data, h, k, items1, n - m);
    }
    StaysAt(data, At(h, items), At(h, items1), m, n);
  }

  function FirstStar(args: seq<Bytes>): (k: nat)
    ensures k <= |args|
    ensures k < |args| ==> EndsInStar(args[k])
    ensures forall a | a in args[..k] :: !EndsInStar(a)
  {
    if args == [] || EndsInStar(args[0]) then 0
    else
      var k := 1 + FirstStar(args[1..]);
      assert args[..k] == [args[0]] + args[1..][..k - 1];
      k
  }

  /** A request with an argument that ends in "*" is scanned forever. */
  lemma StarNeverReturns(args: seq<Bytes>, n: nat)
    requires |Request(args)| < INT_LIMIT
    requires exists a :: a in args && EndsInStar(a)
    ensures Steps(Request(args), Start(Request(args)), n).At?
  {
    var data, h, k := Request(args), |Header(|args|)|, FirstStar(args);
    var first := [View(1, h - 3)];
    assert FirstStarAt(args, k) by { assert args[..|args|] == args; }
    hide *;
    HeaderScanned(args);
    var m := LeadsIn(data, Start(data), At(h, first));
    if n > m {
      NeverLeaves(args, data, h, k, first, n - m);
    }
    StaysAt(data, Start(data), At(h, first), m, n);
  }

  // --- The round trip --------------------------------------------------------------------------------

  lemma {:induction false} SpelledPlain(args: seq<Bytes>)
    requires forall a | a in args :: EndsPlain(a)
    ensures SpelledAll(args) == args
  {
    if args != [] {
      assert args[0] in args;
      SpelledPlain(args[1..]);
      assert args == [args[0]] + args[1..];
    }
  }

  lemma {:induction false} SpelledLonger(args: seq<Bytes>)
    requires forall a | a in args :: !EndsInStar(a)
    ensures |args| <= |SpelledAll(args)|
    ensures (exists a :: a in args && !EndsPlain(a)) ==> |args| < |SpelledAll(args)|
  {
    if args != [] {
      SpelledLonger(args[1..]);
      forall a | a in args && !EndsPlain(a) ensures a == args[0] || a in args[1..] {
      }
    }
  }

  /**
   The scanner returns the count and exactly the arguments if and only if no argument ends in one of the bytes
   that start a reply type.
   */
  lemma RoundTripIffPlain(args: seq<Bytes>)
    requires |Request(args)| < INT_LIMIT
    ensures (exists items :: Returns(Request(args), items) && ReadAs(Request(args), items, [Decimal(|args|)] + args))
            <==> (forall a | a in args :: EndsPlain(a))
  {
    var data := Request(args);
    if exists a :: a in args && EndsInStar(a) {
      NoReturn(args);
    } else {
      var items := RequestParsed(args);
      if forall a | a in args :: EndsPlain(a) {
        SpelledPlain(args);
        hide Returns, Request, Decimal, SpelledAll, ReadAs;
        assert Returns(data, items) && ReadAs(data, items, [Decimal(|args|)] + args);
      } else {
        SpelledLonger(args);
        hide Returns, Request, Decimal, SpelledAll;
        forall other | Returns(data, other) ensures |other| != 1 + |args| {
          ReturnsOnce(data, items, other);
        }
      }
    }
  }

  lemma NoReturn(args: seq<Bytes>)
    requires |Request(args)| < INT_LIMIT
    requires exists a :: a in args && EndsInStar(a)
    ensures forall items :: !Returns(Request(args), items)
    ensures !forall a | a in args :: EndsPlain(a)
  {
    var data := Request(args);
    forall items ensures !Returns(data, items) {
      forall n: nat ensures Steps(data, Start(data), n) != Returned(items) {
        StarNeverReturns(args, n);
      }
    }
  }
}
