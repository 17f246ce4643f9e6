/**
 The key/value body of an sstable: what the compactor writes for each record of a memtable, how a view
 parses it back, and why a flush changes no lookup.

   | key size | key | value size | value |   for a live record,   | key size | key |   for a deleted one
 */
module SstableBody {
  import opened Common
  import opened Varint
  import opened MemtableRecord
  import opened RecordSet
  import opened Bloom
  import opened Memtable

  // --- Writing ---------------------------------------------------------------------------------------

  function BodyRecord(key: Bytes, value: Bytes): Bytes {
    Probe(key) + (Encode(|value|) + value)
  }

  /** The compactor can read the record without following a null pointer or leaving it. */
  predicate Flushable(record: Bytes) {
    ReadForFlush(record).Live? || ReadForFlush(record).Deleted?
  }

  function Flushed(record: Bytes): Bytes
    requires Flushable(record)
  {
    match ReadForFlush(record)
    case Live(key, value) => BodyRecord(key, value)
    case Deleted(key) => Probe(key)
  }

  /** The body: every record of the memtable, in the order of the set. */
  function Body(records: seq<Bytes>): Bytes
    requires forall r <- records :: Flushable(r)
  {
    if records == [] then [] else Flushed(records[0]) + Body(records[1..])
  }

  /** None where the source reads outside a record. */
  method WriteBody(records: seq<Bytes>) returns (data: Option<Bytes>)
    ensures data.Some? <==> forall r <- records :: Flushable(r)
    ensures data.Some? ==> data.value == Body(records)
  {
    hide Flushable;
    var body: Bytes := [];
    for i := 0 to |records|
      invariant forall k: nat | k < i :: Flushable(records[k])
      invariant (forall r <- records :: Flushable(r)) ==> body + Body(records[i..]) == Body(records)
    {
      if !Flushable(records[i]) {
        return None;
      }
      if forall r <- records :: Flushable(r) {
        assert records[i..][1..] == records[i + 1..];
        Assoc(body, Flushed(records[i]), Body(records[i + 1..]));
      }
      body := body + Flushed(records[i]);
    }
    data := Some(body);
  }

  // --- Parsing ---------------------------------------------------------------------------------------

  /** A record is taken from the file, and the loop goes on at `next`; or there is none that could be taken. */
  datatype Taken = Taken(from: nat, to: nat, next: nat) | BadRecord

  /**
   One round of the loop of the view's initialisation, at position p. A value size without a terminator is
   taken for a deleted record; the loop then goes on from the first byte of the key.
   */
  function TakeRecord(s: Bytes, p: nat): (t: Taken)
    ensures t.Taken? ==> t.from <= t.to <= |s| && p < t.next <= |s| && Keyed(s[t.from..t.to])
  {
    var keySize := Parse32(s, p, p + 5);
    if !keySize.Found? || keySize.next <= p then BadRecord
    else
      var q := keySize.next + keySize.value;
      match Parse32(s, q, q + 5)
      case PastEnd => BadRecord
      case NoTerminator =>
        if q <= |s| && Keyed(s[keySize.next..q]) then Taken(keySize.next, q, keySize.next) else BadRecord
      case Found(size, next) =>
        if p < next + size <= |s| && Keyed(s[p..next + size]) then Taken(p, next + size, next + size) else BadRecord
  }

  /** The records found and the position reached. */
  datatype ParsedBody = Views(records: seq<Bytes>, end: nat) | BadBody

  function ParseBody(s: Bytes, p: nat, records: seq<Bytes>): ParsedBody
    requires AllKeyed(records)
    decreases |s| - p
  {
    if p >= |s| then Views(records, p)
    else
      match TakeRecord(s, p)
      case BadRecord => BadBody
      case Taken(from, to, next) => ParseBody(s, next, Insert(records, s[from..to]))
  }

  method InitView(s: Bytes, start: nat) returns (r: ParsedBody)
    ensures r == ParseBody(s, start, [])
  {
    hide TakeRecord, Keyed, Insert;
    var p: nat, records: seq<Bytes> := start, [];
    while p < |s|
      invariant AllKeyed(records)
      invariant ParseBody(s, p, records) == ParseBody(s, start, [])
      decreases |s| - p
    {
      var taken := ReadOne(s, p);
      if taken.BadRecord? {
        return BadBody;
      }
      records := Insert(records, s[taken.from..taken.to]);
      p := taken.next;
    }
    r := Views(records, p);
  }

  method ReadOne(s: Bytes, p: nat) returns (t: Taken)
    ensures t == TakeRecord(s, p)
  {
    hide Parse32, Keyed;
    var keySize := GetVarint32Ptr(s, p, p + 5);
    if !keySize.Found? || keySize.next <= p {
      return BadRecord;
    }
    var q := keySize.next + keySize.value;
    var valueSize := GetVarint32Ptr(s, q, q + 5);
    match valueSize
    case PastEnd =>
      t := BadRecord;
    case NoTerminator =>
      t := if q <= |s| && Keyed(s[keySize.next..q]) then Taken(keySize.next, q, keySize.next) else BadRecord;
    case Found(size, next) =>
      t := if p < next + size <= |s| && Keyed(s[p..next + size]) then Taken(p, next + size, next + size) else BadRecord;
  }

  // --- Looking up in a view ---------------------------------------------------------------------------

  /** A found view record: as long as the probe it is a deletion, else its value follows the key. */
  function AnswerOfView(view: Bytes, probe: Bytes): Answer {
    if |view| == |probe| then Erased
    else
      var keySize := Parse32(view, 0, 5);
      if !keySize.Found? then Faulty
      else
        var p := keySize.next + keySize.value;
        var size := Parse32(view, p, p + 5);
        if !size.Found? then Faulty
        else
          var value := View(view, size.next, size.value);
          if value.Some? then Ok(value.value) else Faulty
  }

  /** MemTable_view::Get, over the filter bits carried by the file. */
  function LookupView(views: seq<Bytes>, bits: Bits, n: nat, hashing: Hashing, key: Bytes): Answer
    requires AllKeyed(views) && FilterData(bits, n) && |key| < TWO_TO_THE_32
  {
    if !Matches(bits, n, hashing(key)) then NotFound
    else
      match FindKey(views, key)
      case None => NotFound
      case Some(view) => AnswerOfView(view, Probe(key))
  }

  // --- The body parses back ---------------------------------------------------------------------------

  function ViewOf(r: Bytes): Bytes
    requires GoodRecord(r)
  {
    BodyRecord(ReadRecord(r).key, ReadRecord(r).value)
  }

  lemma BodyRecordKeyed(key: Bytes, value: Bytes)
    requires SizesFit(key, value)
    ensures Keyed(BodyRecord(key, value)) && KeyOf(BodyRecord(key, value)) == key
  {
    KeyOfProbe(key, Encode(|value|) + value);
  }

  /** Reading a body record where it lies in the file. */
  lemma BodyRecordHeld(s: Bytes, p: nat, key: Bytes, value: Bytes)
    requires SizesFit(key, value) && Holds(s, p, BodyRecord(key, value))
    ensures var q := p + |Probe(key)|;
            && Parse32(s, p, p + 5) == Found(|key|, p + |Encode(|key|)|)
            && Parse32(s, q, q + 5) == Found(|value|, q + |Encode(|value|)|)
            && q + |Encode(|value|)| + |value| == p + |BodyRecord(key, value)|
            && Holds(s, q + |Encode(|value|)|, value)
  {
    var q := p + |Probe(key)|;
    BodyRecordSize(key, value);
    hide Encode, Parse32, Holds;
    HeldSplit(s, p, Probe(key), Encode(|value|) + value);
    HeldSplit(s, p, Encode(|key|), key);
    HeldSplit(s, q, Encode(|value|), value);
    Decode32(s, p, p + 5, |key|);
    Decode32(s, q, q + 5, |value|);
  }

  /** One round at a body record takes exactly that record. */
  lemma TakeBodyRecord(s: Bytes, p: nat, key: Bytes, value: Bytes)
    requires SizesFit(key, value) && Holds(s, p, BodyRecord(key, value))
    ensures var to := p + |BodyRecord(key, value)|;
            TakeRecord(s, p) == Taken(p, to, to) && s[p..to] == BodyRecord(key, value)
  {
    hide Parse32, Keyed, Encode, BodyRecord;
    BodyRecordHeld(s, p, key, value);
    BodyRecordKeyed(key, value);
    ProbeNotEmpty(key);
  }

  lemma ProbeNotEmpty(key: Bytes)
    ensures |Encode(|key|)| > 0 && |Probe(key)| == |Encode(|key|)| + |key|
  {
  }

  lemma TakeView(s: Bytes, p: nat, r: Bytes)
    requires GoodRecord(r) && Holds(s, p, ViewOf(r))
    ensures var to := p + |ViewOf(r)|;
            TakeRecord(s, p) == Taken(p, to, to) && s[p..to] == ViewOf(r)
  {
    TakeBodyRecord(s, p, ReadRecord(r).key, ReadRecord(r).value);
  }

  /** The views of good records, in order. */
  function ViewsOf(records: seq<Bytes>): seq<Bytes>
    requires forall r <- records :: GoodRecord(r)
  {
    if records == [] then [] else [ViewOf(records[0])] + ViewsOf(records[1..])
  }

  lemma {:induction false} ViewsOfSnoc(records: seq<Bytes>, r: Bytes)
    requires (forall x <- records :: GoodRecord(x)) && GoodRecord(r)
    ensures ViewsOf(records + [r]) == ViewsOf(records) + [ViewOf(r)]
  {
    hide GoodRecord, ViewOf;
    if records == [] {
      assert [] + [r] == [r];
      assert ViewsOf([r]) == [ViewOf(r)] + ViewsOf([]);
    } else {
      assert (records + [r])[1..] == records[1..] + [r];
      ViewsOfSnoc(records[1..], r);
    }
  }

  lemma ViewKeyed(r: Bytes)
    requires GoodRecord(r)
    ensures Keyed(ViewOf(r)) && KeyOf(ViewOf(r)) == KeyOf(r)
  {
    BodyRecordKeyed(ReadRecord(r).key, ReadRecord(r).value);
  }

  lemma {:induction false} ViewsKeyed(records: seq<Bytes>)
    requires forall r <- records :: GoodRecord(r)
    ensures AllKeyed(ViewsOf(records))
  {
    hide GoodRecord, Keyed, ViewOf;
    if records != [] {
      ViewKeyed(records[0]);
      ViewsKeyed(records[1..]);
    }
  }

  /** Inserting behind everything in the set appends. */
  lemma {:induction false} InsertLast(records: seq<Bytes>, record: Bytes)
    requires AllKeyed(records) && Keyed(record)
    requires forall r <- records :: Less(r, record)
    ensures Insert(records, record) == records + [record]
  {
    hide Keyed, Less;
    if records != [] {
      LessIsStrictWeakOrder(records[0], record, records[0]);
      InsertLast(records[1..], record);
      assert records == [records[0]] + records[1..];
    }
  }

  lemma LessByKeys(a: Bytes, b: Bytes, x: Bytes, y: Bytes)
    requires Keyed(a) && Keyed(b) && Keyed(x) && Keyed(y)
    requires KeyOf(a) == KeyOf(x) && KeyOf(b) == KeyOf(y)
    ensures Less(a, b) == Less(x, y)
  {
  }

  /** Every view of a smaller record is smaller. */
  lemma {:induction false} ViewsLess(records: seq<Bytes>, r: Bytes)
    requires (forall x <- records :: GoodRecord(x) && Keyed(x)) && GoodRecord(r) && Keyed(r)
    requires forall x <- records :: Less(x, r)
    ensures Keyed(ViewOf(r)) && AllKeyed(ViewsOf(records))
    ensures forall v <- ViewsOf(records) :: Less(v, ViewOf(r))
  {
    hide GoodRecord, Keyed, ViewOf, Less;
    ViewKeyed(r);
    if records != [] {
      ViewKeyed(records[0]);
      LessByKeys(ViewOf(records[0]), ViewOf(r), records[0], r);
      ViewsLess(records[1..], r);
    }
  }

  /**
   Parsing a body from where the first `done` of its records have been parsed: it consumes the file to its
   last byte and gives the views of all the records, in order.
   */
  lemma {:induction false} ParseBodyBack(s: Bytes, p: nat, records: seq<Bytes>, done: nat)
    requires Ordered(records) && (forall r <- records :: GoodRecord(r)) && done <= |records|
    requires (forall r <- records :: Flushable(r)) && p <= |s| && s[p..] == Body(records[done..])
    requires AllKeyed(ViewsOf(records[..done]))
    ensures ParseBody(s, p, ViewsOf(records[..done])) == Views(ViewsOf(records), |s|)
    decreases |records| - done
  {
    hide GoodRecord, Flushable, Keyed, ViewOf, Less, TakeRecord, Flushed, ReadRecord, ReadForFlush;
    if done == |records| {
      assert records[..done] == records;
      assert records[done..] == [];
    } else {
      var r := records[done];
      var view := ViewOf(r);
      FlushedGood(r);
      assert records[done..][1..] == records[done + 1..];
      assert s[p..] == view + Body(records[done + 1..]);
      assert Holds(s, p, view);
      TakeView(s, p, r);
      assert s[p + |view|..] == Body(records[done + 1..]);
      KeyedGood(records);
      ViewsLess(records[..done], r);
      InsertLast(ViewsOf(records[..done]), view);
      assert records[..done + 1] == records[..done] + [r];
      ViewsOfSnoc(records[..done], r);
      ViewsKeyed(records[..done + 1]);
      ParseBodyBack(s, p + |view|, records, done + 1);
    }
  }

  lemma FlushedGood(r: Bytes)
    requires GoodRecord(r)
    ensures Flushable(r) && Flushed(r) == ViewOf(r) && |ViewOf(r)| > 0
  {
  }

  lemma KeyedGood(records: seq<Bytes>)
    requires forall r <- records :: GoodRecord(r)
    ensures AllKeyed(records)
  {
  }

  // --- A flush changes no lookup -----------------------------------------------------------------------

  /** A key is found among the views exactly where it is found among the records. */
  lemma {:induction false} FindView(records: seq<Bytes>, probe: Bytes)
    requires (forall r <- records :: GoodRecord(r)) && AllKeyed(records) && AllKeyed(ViewsOf(records)) && Keyed(probe)
    ensures Find(ViewsOf(records), probe) ==
            match Find(records, probe)
            case None => None
            case Some(r) => if GoodRecord(r) then Some(ViewOf(r)) else None
  {
    hide GoodRecord, Keyed, ViewOf, Less;
    if records != [] {
      ViewKeyed(records[0]);
      LessByKeys(ViewOf(records[0]), probe, records[0], probe);
      LessByKeys(probe, ViewOf(records[0]), probe, records[0]);
      FindView(records[1..], probe);
    }
  }

  lemma AnswersAgree(r: Bytes)
    requires GoodRecord(r)
    ensures AnswerOfView(ViewOf(r), Probe(KeyOf(r))) == AnswerOf(r)
  {
    AnswerOfBodyRecord(ReadRecord(r).key, ReadRecord(r).value);
  }

  lemma AnswerOfBodyRecord(key: Bytes, value: Bytes)
    requires SizesFit(key, value)
    ensures AnswerOfView(BodyRecord(key, value), Probe(key)) == Ok(value)
  {
    var view := BodyRecord(key, value);
    var q := |Probe(key)|;
    assert Holds(view, 0, view);
    BodyRecordSize(key, value);
    hide *;
    BodyRecordHeld(view, 0, key, value);
    HeldView(view, q + |Encode(|value|)|, value);
    AnswerOfViewSteps(view, Probe(key), |Encode(|key|)|, |key|, q + |Encode(|value|)|, value);
  }

  lemma BodyRecordSize(key: Bytes, value: Bytes)
    ensures |BodyRecord(key, value)| == |Probe(key)| + |Encode(|value|)| + |value|
    ensures |Probe(key)| == |Encode(|key|)| + |key|
    ensures |Encode(|value|)| > 0
  {
  }

  lemma AnswerOfViewSteps(view: Bytes, probe: Bytes, p: nat, keySize: nat, q: nat, value: Bytes)
    requires |view| != |probe|
    requires Parse32(view, 0, 5) == Found(keySize, p)
    requires Parse32(view, p + keySize, p + keySize + 5) == Found(|value|, q)
    requires View(view, q, |value|) == Some(value)
    ensures AnswerOfView(view, probe) == Ok(value)
  {
    hide Parse32, View;
  }

  /**
   The compactor can write the body of a run's table exactly if no first Set of a key left its number too little
   room, and then every record is good.
   */
  lemma FlushableIffReadable(n: nat, hashing: Hashing, sets: seq<SetContext>)
    requires n >= 64 && n % 8 == 0
    requires forall c <- sets :: Storable(c)
    ensures var records := AfterSets(n, hashing, sets).records;
            && ((forall r <- records :: Flushable(r)) <==> AllReadable(sets))
            && (AllReadable(sets) ==> forall r <- records :: GoodRecord(r))
  {
    var records := AfterSets(n, hashing, sets).records;
    forall r <- records
      ensures Keyed(r) && FirstSet(sets, KeyOf(r)).Some?
      ensures Flushable(r) <==> Readable(FirstSet(sets, KeyOf(r)).value)
      ensures GoodRecord(r) <==> Readable(FirstSet(sets, KeyOf(r)).value)
    {
      var i: nat :| i < |records| && records[i] == r;
      RecordsAreFirstSets(n, hashing, sets, i);
      RecordReads(FirstSet(sets, KeyOf(r)).value);
    }
    hide AfterSets, Flushable, GoodRecord, Readable, Storable, FirstSet, Keyed, KeyOf;
    if forall r <- records :: Flushable(r) {
      forall c <- sets
        ensures FirstSet(sets, c.key).Some? && Readable(FirstSet(sets, c.key).value)
      {
        var r := FirstSetIsKept(n, hashing, sets, c);
      }
    } else {
      var r :| r in records && !Flushable(r);
      assert FirstSet(sets, KeyOf(r)).value in sets;
    }
  }

  lemma FirstSetIsKept(n: nat, hashing: Hashing, sets: seq<SetContext>, c: SetContext) returns (r: Bytes)
    requires n >= 64 && n % 8 == 0
    requires forall s <- sets :: Storable(s)
    requires c in sets
    ensures r in AfterSets(n, hashing, sets).records && Keyed(r) && KeyOf(r) == c.key && FirstSet(sets, c.key).Some?
  {
    var m := AfterSets(n, hashing, sets);
    assert Storable(c);
    FindAfterSets(n, hashing, sets, c.key);
    SetsKeepRunOk(n, hashing, sets);
    LookupIsFind(m, n, hashing, c.key);
    r := FindKey(m.records, c.key).value;
    hide AfterSets, FindKey, KeyOf, Keyed;
  }

  /**
   After any run of Sets: the body can be written exactly if no first Set of a key left its number too little room
   (else that key's lookup faults already). Writing it behind any header and parsing it back then consumes the
   whole file, and the view answers every lookup as the memtable does.
   */
  lemma FlushKeepsLookups(n: nat, hashing: Hashing, sets: seq<SetContext>, header: Bytes, key: Bytes)
    requires n >= 64 && n % 8 == 0 && |key| < TWO_TO_THE_32
    requires forall c <- sets :: Storable(c)
    ensures var m := AfterSets(n, hashing, sets);
            && ((forall r <- m.records :: Flushable(r)) <==> AllReadable(sets))
            && (AllReadable(sets) ==>
                  var file := header + Body(m.records);
                  var parsed := ParseBody(file, |header|, []);
                  && parsed.Views? && parsed.end == |file| && AllKeyed(parsed.records)
                  && |parsed.records| == |m.records|
                  && LookupView(parsed.records, m.bits, n, hashing, key) == Lookup(m, n, hashing, key))
  {
    FlushableIffReadable(n, hashing, sets);
    if AllReadable(sets) {
      SetsKeepRunOk(n, hashing, sets);
      GoodTableFlushes(AfterSets(n, hashing, sets), n, hashing, header, key);
    }
    hide *;
  }

  lemma GoodTableFlushes(m: Contents, n: nat, hashing: Hashing, header: Bytes, key: Bytes)
    requires ContentsOk(m, n) && RunOk(m, n, hashing) && |key| < TWO_TO_THE_32
    requires forall r <- m.records :: GoodRecord(r) && Flushable(r)
    ensures var file := header + Body(m.records);
            var parsed := ParseBody(file, |header|, []);
            && parsed.Views? && parsed.end == |file| && AllKeyed(parsed.records)
            && |parsed.records| == |m.records|
            && LookupView(parsed.records, m.bits, n, hashing, key) == Lookup(m, n, hashing, key)
  {
    LookupIsFind(m, n, hashing, key);
    var file := header + Body(m.records);
    assert file[|header|..] == Body(m.records);
    assert m.records[0..] == m.records && m.records[..0] == [];
    hide GoodRecord, Flushable, Keyed, Matches, ByteSum;
    ParseBodyBack(file, |header|, m.records, 0);
    ViewsKeyed(m.records);
    ViewsOfLength(m.records);
    ProbeKey(key);
    FindView(m.records, Probe(key));
    if FindKey(m.records, key).Some? {
      AnswersAgree(FindKey(m.records, key).value);
    }
    hide ParseBody, Find;
  }

  lemma {:induction false} ViewsOfLength(records: seq<Bytes>)
    requires forall r <- records :: GoodRecord(r)
    ensures |ViewsOf(records)| == |records|
  {
    hide GoodRecord, ViewOf;
    if records != [] {
      ViewsOfLength(records[1..]);
    }
  }

  // --- The order of the body ---------------------------------------------------------------------------

  lemma JoinedFirst(part: Bytes, parts: seq<Bytes>)
    ensures Joined([part] + parts) == part + Joined(parts)
    decreases |parts|
  {
    if parts == [] {
      assert [part] + parts == [] + [part];
      JoinedMore([], part);
      assert part + [] == part;
    } else {
      var front, last := parts[..|parts| - 1], parts[|parts| - 1];
      JoinedFirst(part, front);
      assert [part] + parts == ([part] + front) + [last];
      JoinedMore([part] + front, last);
      Assoc(part, Joined(front), last);
    }
  }

  /** The body is the views, one after the other. */
  lemma {:induction false} BodyIsViews(records: seq<Bytes>)
    requires forall r <- records :: GoodRecord(r) && Flushable(r)
    ensures Body(records) == Joined(ViewsOf(records))
  {
    if records != [] {
      hide GoodRecord, Flushable, Flushed, ViewOf, Joined;
      FlushedGood(records[0]);
      JoinedFirst(ViewOf(records[0]), ViewsOf(records[1..]));
      BodyIsViews(records[1..]);
    }
  }

  lemma {:induction false} ViewsAt(records: seq<Bytes>, i: nat)
    requires (forall r <- records :: GoodRecord(r)) && i < |records|
    ensures |ViewsOf(records)| == |records| && ViewsOf(records)[i] == ViewOf(records[i])
  {
    hide GoodRecord, ViewOf;
    ViewsOfLength(records);
    if i > 0 {
      ViewsAt(records[1..], i - 1);
    }
  }

  /** The key of one record is before that of another, first difference decides. */
  ghost predicate KeyBefore(a: Bytes, b: Bytes)
    requires Keyed(a) && Keyed(b)
  {
    exists k: nat :: LowerAt(KeyOf(a), KeyOf(b), k)
  }

  ghost predicate KeysAscend(records: seq<Bytes>)
    requires AllKeyed(records)
  {
    forall i: nat, j: nat | i < j < |records| :: KeyBefore(records[i], records[j])
  }

  lemma ViewsAscend(records: seq<Bytes>)
    requires Ordered(records) && forall r <- records :: GoodRecord(r)
    ensures AllKeyed(ViewsOf(records)) && KeysAscend(ViewsOf(records))
  {
    hide GoodRecord, Keyed, KeyOf, ViewOf, Lex, LowerAt;
    ViewsKeyed(records);
    forall i: nat, j: nat | i < j < |ViewsOf(records)|
      ensures KeyBefore(ViewsOf(records)[i], ViewsOf(records)[j])
    {
      ViewsOfLength(records);
      ViewsAt(records, i);
      ViewsAt(records, j);
      ViewKeyed(records[i]);
      ViewKeyed(records[j]);
      assert Less(records[i], records[j]);
      LexIffLower(KeyOf(records[i]), KeyOf(records[j]));
    }
  }

  /**
   The body of a run's table, behind any header, is the parsed views one after the other, and their keys ascend in
   dictionary order.
   */
  lemma BodyInKeyOrder(n: nat, hashing: Hashing, sets: seq<SetContext>, header: Bytes)
    requires n >= 64 && n % 8 == 0 && AllReadable(sets)
    requires forall c <- sets :: Storable(c)
    ensures var m := AfterSets(n, hashing, sets);
            && (forall r <- m.records :: Flushable(r))
            && var parsed := ParseBody(header + Body(m.records), |header|, []);
               && parsed.Views? && AllKeyed(parsed.records)
               && Body(m.records) == Joined(parsed.records)
               && KeysAscend(parsed.records)
  {
    FlushableIffReadable(n, hashing, sets);
    SetsKeepRunOk(n, hashing, sets);
    hide AfterSets, Storable, AllReadable;
    var m := AfterSets(n, hashing, sets);
    GoodBodyInKeyOrder(m.records, header);
  }

  lemma GoodBodyInKeyOrder(records: seq<Bytes>, header: Bytes)
    requires Ordered(records) && forall r <- records :: GoodRecord(r) && Flushable(r)
    ensures var parsed := ParseBody(header + Body(records), |header|, []);
            && parsed.Views? && AllKeyed(parsed.records)
            && Body(records) == Joined(parsed.records)
            && KeysAscend(parsed.records)
  {
    var file := header + Body(records);
    assert file[|header|..] == Body(records);
    assert records[0..] == records && records[..0] == [];
    hide GoodRecord, Flushable, Keyed, KeysAscend, Joined;
    ParseBodyBack(file, |header|, records, 0);
    BodyIsViews(records);
    ViewsAscend(records);
    hide ParseBody, Body;
  }
}
