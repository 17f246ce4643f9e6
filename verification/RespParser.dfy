/** The command scanner: one index that moves through the bytes of a request and pushes views of them. */
module RespParser {

  type Bytes = seq<char>

  const TWO_TO_THE_64: nat := 0x1_0000_0000_0000_0000
  const INT_LIMIT: int := 0x8000_0000

  /** A view is a place and a length; the scanner never reads through the views it pushes. */
  datatype Item = View(start: int, length: nat) | Ping | Error

  /** The scan stands at an index with what it has pushed, or has returned, or its index has left its type. */
  datatype Scan = At(i: int, items: seq<Item>) | Returned(items: seq<Item>) | Overflowed

  // --- Library calls ---------------------------------------------------------------------------------

  predicate LineEnd(data: Bytes, k: nat) {
    k + 1 < |data| && data[k] == '\r' && data[k + 1] == '\n'
  }

  /** The first "\r\n" at or after a place, or the length when there is none. */
  function Find(data: Bytes, from: nat): (r: nat)
    requires from <= |data|
    ensures r <= |data|
    ensures r < |data| ==> from <= r && LineEnd(data, r)
    ensures forall k: nat | from <= k < r :: !LineEnd(data, k)
    decreases |data| - from
  {
    if |data| < from + 2 then |data|
    else if LineEnd(data, from) then from
    else Find(data, from + 1)
  }

  predicate IsDigit(c: char) {
    '0' <= c <= '9'
  }

  function DigitPrefix(s: Bytes): Bytes {
    if s == [] || !IsDigit(s[0]) then [] else [s[0]] + DigitPrefix(s[1..])
  }

  function DigitsValue(s: Bytes): int {
    if s == [] then 0 else 10 * DigitsValue(s[..|s| - 1]) + (s[|s| - 1] as int - '0' as int)
  }

  /** Reads an optional minus sign and digits; a number that is missing or does not fit an int leaves zero. */
  function FromChars(s: Bytes): int {
    var negative := s != [] && s[0] == '-';
    var digits := DigitPrefix(if negative then s[1..] else s);
    var value := if negative then -DigitsValue(digits) else DigitsValue(digits);
    if -INT_LIMIT <= value < INT_LIMIT then value else 0
  }

  /** A length is unsigned, of 64 bits. */
  function AsSize(n: int): (r: nat)
    ensures 0 <= n < INT_LIMIT ==> r == n
  {
    n % TWO_TO_THE_64
  }

  // --- The scan --------------------------------------------------------------------------------------

  predicate IsLine(c: char) {
    c == '+' || c == '-' || c == ':'
  }

  /** One round of the loop, the test and the increment included. */
  function Step(data: Bytes, s: Scan): Scan {
    if !s.At? then s
    else if !(0 <= s.i < |data|) then Returned(s.items)
    else if IsLine(data[s.i]) then
      var end := Find(data, s.i);
      if end == |data| then Returned(s.items + [Error])
      else At(end + 2, s.items + [View(s.i + 1, end - s.i)])
    else if data[s.i] == '$' then
      var end := Find(data, s.i);
      if end == |data| then Returned(s.items + [Error])
      else
        var number := FromChars(data[s.i + 1..end + 1]);
        if INT_LIMIT <= end + number + 1 then Overflowed
        else At(end + number + 1, s.items + [View(end + 2, AsSize(number))])
    else if data[s.i] == '*' then
      var end := Find(data, 0);
      if end == |data| then Returned(s.items + [Error])
      else At(end + 2, s.items + [View(s.i + 1, AsSize(end - s.i - 1))])
    else At(s.i + 1, s.items)
  }

  lemma BulkStep(data: Bytes, i: nat, number: int, end: nat, items: seq<Item>)
    requires i < |data| && data[i] == '$' && Find(data, i) == end < |data|
    requires FromChars(data[i + 1..end + 1]) == number
    ensures Step(data, At(i, items)) ==
            if INT_LIMIT <= end + number + 1 then Overflowed
            else At(end + number + 1, items + [View(end + 2, AsSize(number))])
  {
    hide Find, FromChars, AsSize;
  }

  lemma StarStep(data: Bytes, i: nat, end: nat, items: seq<Item>)
    requires i < |data| && data[i] == '*' && Find(data, 0) == end < |data|
    ensures Step(data, At(i, items)) == At(end + 2, items + [View(i + 1, AsSize(end - i - 1))])
  {
    hide Find, FromChars, AsSize;
  }

  lemma LineStep(data: Bytes, i: nat, end: nat, items: seq<Item>)
    requires i < |data| && IsLine(data[i]) && Find(data, i) == end < |data|
    ensures Step(data, At(i, items)) == At(end + 2, items + [View(i + 1, end - i)])
  {
    hide Find, FromChars, AsSize;
  }

  lemma ErrorStep(data: Bytes, i: nat, items: seq<Item>)
    requires i < |data|
    requires ((IsLine(data[i]) || data[i] == '$') && Find(data, i) == |data|) || (data[i] == '*' && Find(data, 0) == |data|)
    ensures Step(data, At(i, items)) == Returned(items + [Error])
  {
    hide Find, FromChars, AsSize;
  }

  lemma PlainStep(data: Bytes, i: nat, items: seq<Item>)
    requires i < |data| && !IsLine(data[i]) && data[i] != '$' && data[i] != '*'
    ensures Step(data, At(i, items)) == At(i + 1, items)
  {
  }

  function Start(data: Bytes): Scan {
    if data == "PING" then Returned([Ping]) else At(0, [])
  }

  function Steps(data: Bytes, s: Scan, n: nat): Scan {
    if n == 0 then s else Step(data, Steps(data, s, n - 1))
  }

  ghost predicate Returns(data: Bytes, items: seq<Item>) {
    exists n: nat :: Steps(data, Start(data), n) == Returned(items)
  }

  /** The loop of the scanner, cut off after a number of rounds. */
  method ParseRedisProtocol(data: Bytes, rounds: nat) returns (scan: Scan)
    requires |data| < INT_LIMIT
    ensures scan == Steps(data, Start(data), rounds)
  {
    if data == "PING" {
      Settled(data, Start(data), rounds);
      return Returned([Ping]);
    }
    var items: seq<Item> := [];
    var i: int := 0;
    var n := 0;
    while n < rounds
      invariant n <= rounds && Steps(data, Start(data), n) == At(i, items)
    {
      NextStep(data, n, rounds);
      n := n + 1;
      hide Steps, Step, AsSize, Find, FromChars;
      if !(0 <= i < |data|) {
        assert Step(data, At(i, items)) == Returned(items) by { PastTheEnd(data, At(i, items)); }
        return Returned(items);
      }
      ghost var from := items;
      ghost var at: nat := i;
      if data[i] == '+' || data[i] == '-' || data[i] == ':' {
        var end := Find(data, i);
        if end == |data| {
          ErrorStep(data, i, items);
          return Returned(items + [Error]);
        }
        LineStep(data, i, end, items);
        items := items + [View(i + 1, end - i)];
        i := end + 1;
      } else if data[i] == '$' {
        var end := Find(data, i);
        if end == |data| {
          ErrorStep(data, i, items);
          return Returned(items + [Error]);
        }
        var number := FromChars(data[i + 1..end + 1]);
        BulkStep(data, i, number, end, items);
        i := end;
        items := items + [View(i + 2, AsSize(number))];
        if INT_LIMIT <= i + number + 1 {
          return Overflowed;
        }
        i := i + number;
      } else if data[i] == '*' {
        var end := Find(data, 0);
        if end == |data| {
          ErrorStep(data, i, items);
          return Returned(items + [Error]);
        }
        StarStep(data, i, end, items);
        items := items + [View(i + 1, AsSize(end - i - 1))];
        i := end + 1;
      } else {
        PlainStep(data, i, items);
      }
      i := i + 1;
      assert Step(data, At(at, from)) == At(i, items);
    }
    return At(i, items);
  }

  lemma PastTheEnd(data: Bytes, s: Scan)
    requires s.At? && !(0 <= s.i < |data|)
    ensures Step(data, s) == Returned(s.items)
  {
  }

  lemma NextStep(data: Bytes, n: nat, rounds: nat)
    requires n < rounds
    ensures Steps(data, Start(data), n + 1) == Step(data, Steps(data, Start(data), n))
    ensures !Steps(data, Start(data), n + 1).At? ==>
              Steps(data, Start(data), rounds) == Step(data, Steps(data, Start(data), n))
  {
    if !Steps(data, Start(data), n + 1).At? {
      Later(data, n + 1, rounds);
    }
  }

  lemma {:induction false} Settled(data: Bytes, s: Scan, n: nat)
    requires !s.At?
    ensures Steps(data, s, n) == s
  {
    if n != 0 { Settled(data, s, n - 1); }
  }

  lemma {:induction false} StepsAdd(data: Bytes, s: Scan, n: nat, m: nat)
    ensures Steps(data, s, n + m) == Steps(data, Steps(data, s, n), m)
  {
    hide Step;
    if m != 0 { StepsAdd(data, s, n, m - 1); }
  }

  lemma Later(data: Bytes, n: nat, rounds: nat)
    requires n <= rounds && !Steps(data, Start(data), n).At?
    ensures Steps(data, Start(data), rounds) == Steps(data, Start(data), n)
  {
    StepsAdd(data, Start(data), n, rounds - n);
    Settled(data, Steps(data, Start(data), n), rounds - n);
  }

  lemma ReturnsOnce(data: Bytes, a: seq<Item>, b: seq<Item>)
    requires Returns(data, a) && Returns(data, b)
    ensures a == b
  {
    var n: nat :| Steps(data, Start(data), n) == Returned(a);
    var m: nat :| Steps(data, Start(data), m) == Returned(b);
    hide Steps, Start, Step;
    Later(data, n, n + m);
    Later(data, m, n + m);
  }
}
