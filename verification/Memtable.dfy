/**
 The memtable: an ordered set of records, their total size and a Bloom filter.
 */
module Memtable {
  import opened Common
  import opened Varint
  import opened MemtableRecord
  import opened RecordSet
  import opened Bloom

  /** The outcome of a lookup; Faulty where the source would follow a null pointer or leave the record. */
  datatype Answer = NotFound | Ok(value: Bytes) | Erased | Faulty

  datatype SetContext = SetContext(key: Bytes, number: nat, value: Bytes)

  /** A memtable's contents; n and hashing are those of its filter. */
  datatype Contents = Contents(records: seq<Bytes>, memSize: nat, bits: Bits)

  predicate ContentsOk(m: Contents, n: nat) {
    AllKeyed(m.records) && FilterData(m.bits, n)
  }

  /** The request can be stored: sizes and number fit their fields, and the header stays inside the record. */
  predicate Storable(c: SetContext) {
    SizesFit(c.key, c.value) && c.number < TWO_TO_THE_64 && SetRecord(c.key, c.number, c.value).Some?
  }

  /** The number takes no more bytes than were left for it. */
  predicate Readable(c: SetContext) {
    |Encode(c.number)| <= |Encode(|c.value|)|
  }

  /** A record that the lookup and the flush both read as the same live key and value. */
  predicate GoodRecord(r: Bytes) {
    && ReadRecord(r).Live?
    && SizesFit(ReadRecord(r).key, ReadRecord(r).value)
    && ReadForFlush(r) == ReadRecord(r)
    && Keyed(r)
    && KeyOf(r) == ReadRecord(r).key
  }

  function RecordOf(c: SetContext): (r: Bytes)
    requires Storable(c)
    ensures Keyed(r) && KeyOf(r) == c.key
  {
    RecordKeyed(c);
    SetRecord(c.key, c.number, c.value).value
  }

  lemma RecordKeyed(c: SetContext)
    requires Storable(c)
    ensures var r := SetRecord(c.key, c.number, c.value).value; Keyed(r) && KeyOf(r) == c.key
  {
    var rest := Blank(c.key, c.value)[|Header(c.key, c.number, c.value)|..];
    HeaderIsProbe(c.key, c.number, c.value, rest);
    hide Blank, Header, Probe, Keyed, KeyOf, Encode;
    KeyOfProbe(c.key, (Encode(c.number) + ([TYPE_VALUE] + Encode(|c.value|))) + rest);
  }

  lemma HeaderIsProbe(key: Bytes, number: nat, value: Bytes, rest: Bytes)
    ensures Header(key, number, value) + rest
         == Probe(key) + ((Encode(number) + ([TYPE_VALUE] + Encode(|value|))) + rest)
  {
    hide Encode;
    var fields := Encode(number) + ([TYPE_VALUE] + Encode(|value|));
    Assoc(Encode(|key|), key, fields);
    Assoc(Probe(key), fields, rest);
  }

  /** What the lookup makes of a request's record: the value read back, or a fault. */
  function AnswerOfSet(c: SetContext): Answer {
    if Readable(c) then Ok(ReadBack(c.number, c.value)) else Faulty
  }

  /** A record is good, for the lookup and the flush, exactly when its number takes no more bytes than its room. */
  lemma RecordReads(c: SetContext)
    requires Storable(c)
    ensures GoodRecord(RecordOf(c)) <==> Readable(c)
    ensures ReadForFlush(RecordOf(c)) == ReadRecord(RecordOf(c))
    ensures ReadRecord(RecordOf(c)).Live? <==> Readable(c)
    ensures !ReadRecord(RecordOf(c)).Deleted?
    ensures AnswerOf(RecordOf(c)) == AnswerOfSet(c)
  {
    hide Encode, SetRecord, ReadRecord, ReadForFlush, Keyed, KeyOf, Spaces;
    LongNumber(c.number, c.value);
    ReadSetRecord(c.key, c.number, c.value);
    FlushReadsAsGet(c.key, c.number, c.value);
    RecordKeyed(c);
  }

  // --- Operations ------------------------------------------------------------------------------------

  function AfterSet(m: Contents, n: nat, hashing: Hashing, c: SetContext): (r: Contents)
    requires ContentsOk(m, n) && Storable(c)
    ensures ContentsOk(r, n)
  {
    var record := RecordOf(c);
    var records := Insert(m.records, record);
    Contents(records,
             if |records| > |m.records| then (m.memSize + |record|) % TWO_TO_THE_32 else m.memSize,
             Inserted(m.bits, n, hashing(c.key)))
  }

  function AnswerOf(record: Bytes): Answer {
    match ReadRecord(record)
    case Live(_, value) => Ok(value)
    case Deleted(_) => Erased
    case _ => Faulty
  }

  function Lookup(m: Contents, n: nat, hashing: Hashing, key: Bytes): Answer
    requires ContentsOk(m, n) && |key| < TWO_TO_THE_32
  {
    if !Matches(m.bits, n, hashing(key)) then NotFound
    else
      KeyOfProbe(key, []);
      assert Probe(key) + [] == Probe(key);
      match Find(m.records, Probe(key))
      case None => NotFound
      case Some(record) => AnswerOf(record)
  }

  lemma SetParts(m: Contents, n: nat, hashing: Hashing, c: SetContext)
    requires ContentsOk(m, n) && Storable(c)
    ensures Keyed(RecordOf(c)) && AllKeyed(m.records) && FilterData(m.bits, n)
    ensures var record := RecordOf(c);
            var records := Insert(m.records, record);
            AfterSet(m, n, hashing, c) ==
              Contents(records,
                       if |records| > |m.records| then (m.memSize + |record|) % TWO_TO_THE_32 else m.memSize,
                       Inserted(m.bits, n, hashing(c.key)))
  {
    hide RecordOf, Insert, Inserted, Keyed;
  }

  method FormatRecord(c: SetContext) returns (record: Bytes)
    requires Storable(c)
    ensures record == RecordOf(c)
  {
    hide GoodRecord, Header, SetRecord;
    var formatted := FormatSet(c.key, c.number, c.value);
    record := formatted[..];
  }

  class Memtable {
    var memMap: seq<Bytes>
    var memSize: nat
    const bloomFilter: BloomFilter

    ghost predicate Valid()
      reads this, bloomFilter, bloomFilter.filter, bloomFilter.filter.data
    {
      bloomFilter.Valid() && ContentsOk(Model(), bloomFilter.n)
    }

    ghost function Model(): Contents
      reads this, bloomFilter, bloomFilter.filter, bloomFilter.filter.data
    {
      Contents(memMap, memSize, bloomFilter.filter.data[..])
    }

    constructor (n: nat, hashing: Hashing)
      requires n >= 64 && n % 8 == 0
      ensures Valid() && fresh(bloomFilter) && fresh(bloomFilter.filter) && fresh(bloomFilter.filter.data)
      ensures Model() == Contents([], 0, seq(n / 8, _ => 0))
      ensures bloomFilter.n == n && bloomFilter.hashing == hashing
    {
      memMap := [];
      memSize := 0;
      bloomFilter := new BloomFilter(n, hashing);
    }

    method Set(c: SetContext)
      requires Valid() && Storable(c)
      modifies this, bloomFilter.filter.data
      ensures Valid()
      ensures Model() == AfterSet(old(Model()), bloomFilter.n, bloomFilter.hashing, c)
    {
      hide ContentsOk, AfterSet, RecordOf, Insert, Inserted, Storable, GoodRecord, Keyed, AllKeyed, FilterData;
      var simpleSetStr := FormatRecord(c);
      SetParts(Model(), bloomFilter.n, bloomFilter.hashing, c);
      bloomFilter.Insert(c.key);
      var originMemMapSize := |memMap|;
      memMap := Insert(memMap, simpleSetStr);
      if |memMap| > originMemMapSize {
        memSize := (memSize + |simpleSetStr|) % TWO_TO_THE_32;
      }
    }

    method Get(key: Bytes) returns (answer: Answer)
      requires Valid() && |key| < TWO_TO_THE_32
      ensures answer == Lookup(Model(), bloomFilter.n, bloomFilter.hashing, key)
    {
      hide Probe, Find, Matches;
      var match_ := bloomFilter.IsMatch(key);
      if !match_ {
        return NotFound;
      }
      KeyOfProbe(key, []);
      assert Probe(key) + [] == Probe(key);
      var found := Find(memMap, Probe(key));
      if found.None? {
        return NotFound;
      }
      answer := AnswerOf(found.value);
    }
  }

  // --- Runs of Sets ----------------------------------------------------------------------------------

  function Empty(n: nat): Contents
    requires n >= 64 && n % 8 == 0
  {
    Contents([], 0, seq(n / 8, _ => 0))
  }

  function AfterSets(n: nat, hashing: Hashing, sets: seq<SetContext>): (m: Contents)
    requires n >= 64 && n % 8 == 0
    requires forall c <- sets :: Storable(c)
    ensures ContentsOk(m, n)
    decreases |sets|
  {
    if sets == [] then Empty(n)
    else AfterSet(AfterSets(n, hashing, sets[..|sets| - 1]), n, hashing, sets[|sets| - 1])
  }

  function ByteSum(records: seq<Bytes>): nat {
    if records == [] then 0 else |records[0]| + ByteSum(records[1..])
  }

  /** What a run of Sets keeps: order, exact size (in 32 bits), no false negatives. */
  ghost predicate RunOk(m: Contents, n: nat, hashing: Hashing)
    requires ContentsOk(m, n)
  {
    && Ordered(m.records)
    && (forall r <- m.records :: Matches(m.bits, n, hashing(KeyOf(r))))
    && m.memSize == ByteSum(m.records) % TWO_TO_THE_32
  }

  lemma {:induction false} ByteSumInsert(records: seq<Bytes>, record: Bytes)
    requires AllKeyed(records) && Keyed(record)
    ensures |Insert(records, record)| == |records| ==> Insert(records, record) == records
    ensures |Insert(records, record)| > |records| ==> ByteSum(Insert(records, record)) == ByteSum(records) + |record|
    ensures |Insert(records, record)| >= |records|
  {
    hide Keyed, Less;
    if records != [] && !Less(record, records[0]) && Less(records[0], record) {
      ByteSumInsert(records[1..], record);
      assert records == [records[0]] + records[1..];
    }
  }

  lemma AddSizes(sum: nat, more: nat)
    ensures (sum % TWO_TO_THE_32 + more) % TWO_TO_THE_32 == (sum + more) % TWO_TO_THE_32
  {
  }

  lemma SetKeepsMatches(m: Contents, n: nat, hashing: Hashing, c: SetContext, r: Bytes)
    requires ContentsOk(m, n) && Storable(c) && RunOk(m, n, hashing)
    requires r in AfterSet(m, n, hashing, c).records
    ensures Matches(AfterSet(m, n, hashing, c).bits, n, hashing(KeyOf(r)))
  {
    var record := RecordOf(c);
    hide Matches, Inserted, Insert, Keyed, KeyOf, Ordered, ByteSum, RecordOf, Storable;
    SetParts(m, n, hashing, c);
    if r == record {
      InsertedMatches(m.bits, n, hashing(c.key), hashing(c.key));
    } else {
      assert r in m.records;
      InsertedMatches(m.bits, n, hashing(c.key), hashing(KeyOf(r)));
    }
  }

  lemma SetKeepsOrderAndSize(m: Contents, n: nat, hashing: Hashing, c: SetContext)
    requires ContentsOk(m, n) && Storable(c)
    requires Ordered(m.records) && m.memSize == ByteSum(m.records) % TWO_TO_THE_32
    ensures var m' := AfterSet(m, n, hashing, c);
            Ordered(m'.records) && m'.memSize == ByteSum(m'.records) % TWO_TO_THE_32
  {
    hide *;
    SetParts(m, n, hashing, c);
    InsertOrdered(m.records, RecordOf(c));
    SizeAfterInsert(m.records, m.memSize, RecordOf(c));
  }

  lemma SizeAfterInsert(records: seq<Bytes>, memSize: nat, record: Bytes)
    requires AllKeyed(records) && Keyed(record)
    requires memSize == ByteSum(records) % TWO_TO_THE_32
    ensures (if |Insert(records, record)| > |records| then (memSize + |record|) % TWO_TO_THE_32 else memSize)
         == ByteSum(Insert(records, record)) % TWO_TO_THE_32
  {
    hide Insert, ByteSum, Keyed, AllKeyed;
    ByteSumInsert(records, record);
    AddSizes(ByteSum(records), |record|);
  }

  lemma SetKeepsRunOk(m: Contents, n: nat, hashing: Hashing, c: SetContext)
    requires ContentsOk(m, n) && Storable(c) && RunOk(m, n, hashing)
    ensures RunOk(AfterSet(m, n, hashing, c), n, hashing)
  {
    var m' := AfterSet(m, n, hashing, c);
    forall r <- m'.records
      ensures Matches(m'.bits, n, hashing(KeyOf(r)))
    {
      SetKeepsMatches(m, n, hashing, c, r);
    }
    hide Matches, Keyed, KeyOf, Ordered, ByteSum, AfterSet, Storable, ContentsOk;
    SetKeepsOrderAndSize(m, n, hashing, c);
  }

  lemma {:induction false} SetsKeepRunOk(n: nat, hashing: Hashing, sets: seq<SetContext>)
    requires n >= 64 && n % 8 == 0
    requires forall c <- sets :: Storable(c)
    ensures RunOk(AfterSets(n, hashing, sets), n, hashing)
    decreases |sets|
  {
    hide Storable;
    if sets != [] {
      SetsKeepRunOk(n, hashing, sets[..|sets| - 1]);
      SetKeepsRunOk(AfterSets(n, hashing, sets[..|sets| - 1]), n, hashing, sets[|sets| - 1]);
      hide AfterSet, RunOk;
    }
  }

  // --- What lookups find -----------------------------------------------------------------------------

  /** The first Set of a key. */
  function FirstSet(sets: seq<SetContext>, key: Bytes): (first: Option<SetContext>)
    ensures first.Some? ==> first.value in sets && first.value.key == key
    ensures first.None? ==> forall c <- sets :: c.key != key
    decreases |sets|
  {
    if sets == [] then None
    else
      var earlier := FirstSet(sets[..|sets| - 1], key);
      var last := sets[|sets| - 1];
      if earlier.None? && last.key == key then Some(last) else earlier
  }

  /** The set stands in the run before every other one of its key. */
  ghost predicate IsFirstAt(sets: seq<SetContext>, key: Bytes, i: nat) {
    i < |sets| && sets[i].key == key && forall j: nat | j < i :: sets[j].key != key
  }

  lemma {:induction false} FirstSetIsFirst(sets: seq<SetContext>, key: Bytes)
    ensures FirstSet(sets, key).Some? ==> exists i: nat :: IsFirstAt(sets, key, i) && sets[i] == FirstSet(sets, key).value
    ensures FirstSet(sets, key).None? <==> forall c <- sets :: c.key != key
    decreases |sets|
  {
    if sets != [] {
      var front := sets[..|sets| - 1];
      FirstSetIsFirst(front, key);
      if FirstSet(front, key).Some? {
        var i: nat :| IsFirstAt(front, key, i) && front[i] == FirstSet(front, key).value;
        assert IsFirstAt(sets, key, i);
      } else if FirstSet(sets, key).Some? {
        assert forall j: nat | j < |front| :: front[j] in front;
        assert IsFirstAt(sets, key, |front|);
      }
    }
  }

  // --- What the filter lets through ------------------------------------------------------------------

  function KeysSet(sets: seq<SetContext>): (keys: seq<Bytes>)
    ensures |keys| == |sets| && forall i: nat | i < |sets| :: keys[i] == sets[i].key
  {
    if sets == [] then [] else KeysSet(sets[..|sets| - 1]) + [sets[|sets| - 1].key]
  }

  lemma {:induction false} FilterHasTheKeys(n: nat, hashing: Hashing, sets: seq<SetContext>)
    requires n >= 64 && n % 8 == 0
    requires forall c <- sets :: Storable(c)
    ensures AfterSets(n, hashing, sets).bits == InsertedAll(n, hashing, KeysSet(sets))
    decreases |sets|
  {
    if sets != [] {
      var front := sets[..|sets| - 1];
      FilterHasTheKeys(n, hashing, front);
      assert KeysSet(sets)[..|sets| - 1] == KeysSet(front);
      hide Storable, Inserted, Insert, RecordOf;
    }
  }

  /**
   After a run of Sets the filter lets a key through exactly if each of its four places is a place of a key that was
   set; for every other key the records are not searched.
   */
  lemma FilterPassesIff(n: nat, hashing: Hashing, sets: seq<SetContext>, key: Bytes)
    requires n >= 64 && n % 8 == 0 && |key| < TWO_TO_THE_32
    requires forall c <- sets :: Storable(c)
    ensures var m := AfterSets(n, hashing, sets);
            var h := hashing(key);
            && (Matches(m.bits, n, h) <==>
                  forall place <- [h.0 % n, h.1 % n, h.2 % n, h.3 % n] :: IsPlaceOf(n, hashing, KeysSet(sets), place))
            && (!Matches(m.bits, n, h) ==> Lookup(m, n, hashing, key) == NotFound)
  {
    FilterHasTheKeys(n, hashing, sets);
    MatchesIffPlaces(n, hashing, KeysSet(sets), key);
    hide Matches, IsPlaceOf, AfterSets, InsertedAll, KeysSet;
  }

  /** The record found for a key. */
  function FindKey(records: seq<Bytes>, key: Bytes): Option<Bytes>
    requires AllKeyed(records) && |key| < TWO_TO_THE_32
  {
    KeyOfProbe(key, []);
    assert Probe(key) + [] == Probe(key);
    Find(records, Probe(key))
  }

  lemma ProbeKey(key: Bytes)
    requires |key| < TWO_TO_THE_32
    ensures Keyed(Probe(key)) && KeyOf(Probe(key)) == key
  {
    KeyOfProbe(key, []);
    assert Probe(key) + [] == Probe(key);
  }

  /** The filter never hides a record: in a run's contents, a lookup is a search of the records. */
  lemma LookupIsFind(m: Contents, n: nat, hashing: Hashing, key: Bytes)
    requires ContentsOk(m, n) && RunOk(m, n, hashing) && |key| < TWO_TO_THE_32
    ensures Lookup(m, n, hashing, key) ==
            match FindKey(m.records, key) case None => NotFound case Some(record) => AnswerOf(record)
    ensures FindKey(m.records, key).Some? ==>
              FindKey(m.records, key).value in m.records
              && KeyOf(FindKey(m.records, key).value) == key && Matches(m.bits, n, hashing(key))
  {
    ProbeKey(key);
    FindHasKey(m.records, Probe(key));
    hide Matches, Keyed, KeyOf, Ordered, ByteSum, Find;
  }

  lemma FindAfterSet(m: Contents, n: nat, hashing: Hashing, c: SetContext, key: Bytes)
    requires ContentsOk(m, n) && Ordered(m.records) && Storable(c) && |key| < TWO_TO_THE_32
    ensures FindKey(AfterSet(m, n, hashing, c).records, key) ==
            if FindKey(m.records, key).None? && c.key == key then Some(RecordOf(c)) else FindKey(m.records, key)
  {
    ProbeKey(key);
    SetParts(m, n, hashing, c);
    hide Keyed, KeyOf, Ordered, Find, Insert, Inserted, RecordOf, Storable, AfterSet;
    FindInsert(m.records, RecordOf(c), Probe(key));
  }

  /** What is kept for a key is the record of its first Set. */
  lemma {:induction false} FindAfterSets(n: nat, hashing: Hashing, sets: seq<SetContext>, key: Bytes)
    requires n >= 64 && n % 8 == 0 && |key| < TWO_TO_THE_32
    requires forall c <- sets :: Storable(c)
    ensures FindKey(AfterSets(n, hashing, sets).records, key) ==
            match FirstSet(sets, key) case None => None case Some(c) => if Storable(c) then Some(RecordOf(c)) else None
    decreases |sets|
  {
    if sets != [] {
      var before, c := sets[..|sets| - 1], sets[|sets| - 1];
      FindAfterSets(n, hashing, before, key);
      SetsKeepRunOk(n, hashing, before);
      FindAfterSet(AfterSets(n, hashing, before), n, hashing, c, key);
      hide AfterSet, FindKey, Storable, Matches, Ordered, ByteSum, RecordOf;
    } else {
      hide Keyed;
    }
  }

  /**
   After any run of Sets a lookup answers with the first Set of the key, if there was one: with its value as it
   reads back, or with a fault when its number takes more bytes than its room.
   */
  lemma LookupIsFirstSet(n: nat, hashing: Hashing, sets: seq<SetContext>, key: Bytes)
    requires n >= 64 && n % 8 == 0 && |key| < TWO_TO_THE_32
    requires forall c <- sets :: Storable(c)
    ensures Lookup(AfterSets(n, hashing, sets), n, hashing, key) ==
            match FirstSet(sets, key) case None => NotFound case Some(c) => AnswerOfSet(c)
  {
    SetsKeepRunOk(n, hashing, sets);
    FindAfterSets(n, hashing, sets, key);
    LookupIsFind(AfterSets(n, hashing, sets), n, hashing, key);
    if FirstSet(sets, key).Some? {
      RecordReads(FirstSet(sets, key).value);
    }
    hide *;
  }

  lemma {:induction false} KeyFromSet(n: nat, hashing: Hashing, sets: seq<SetContext>, r: Bytes)
    requires n >= 64 && n % 8 == 0
    requires forall c <- sets :: Storable(c)
    requires r in AfterSets(n, hashing, sets).records
    ensures Keyed(r) && exists c <- sets :: c.key == KeyOf(r)
    decreases |sets|
  {
    hide Storable, Keyed, KeyOf, RecordOf, Insert;
    if sets != [] {
      var before, last := AfterSets(n, hashing, sets[..|sets| - 1]), sets[|sets| - 1];
      SetParts(before, n, hashing, last);
      if r in before.records {
        KeyFromSet(n, hashing, sets[..|sets| - 1], r);
      } else {
        assert r == RecordOf(last);
      }
    }
  }

  /** Each record kept is that of the first Set of its key. */
  lemma RecordsAreFirstSets(n: nat, hashing: Hashing, sets: seq<SetContext>, i: nat)
    requires n >= 64 && n % 8 == 0
    requires forall c <- sets :: Storable(c)
    requires i < |AfterSets(n, hashing, sets).records|
    ensures var r := AfterSets(n, hashing, sets).records[i];
            var first := FirstSet(sets, KeyOf(r));
            Keyed(r) && first.Some? && r == RecordOf(first.value)
  {
    var records := AfterSets(n, hashing, sets).records;
    var r := records[i];
    KeyFromSet(n, hashing, sets, r);
    SetsKeepRunOk(n, hashing, sets);
    ProbeKey(KeyOf(r));
    FindAfterSets(n, hashing, sets, KeyOf(r));
    FindOwn(records, i, Probe(KeyOf(r)));
    hide AfterSets, FirstSet, RecordOf, Storable, KeyOf, Keyed, Ordered, Matches;
  }

  /** Whether every value that a run left can be read: the first Set of each key left its number enough room. */
  predicate AllReadable(sets: seq<SetContext>) {
    forall c <- sets :: FirstSet(sets, c.key).Some? && Readable(FirstSet(sets, c.key).value)
  }

  /** A run leaves a key whose lookup faults exactly when some key's first Set left its number too little room. */
  lemma LookupFaultsIff(n: nat, hashing: Hashing, sets: seq<SetContext>)
    requires n >= 64 && n % 8 == 0
    requires forall c <- sets :: Storable(c)
    ensures (exists key: Bytes :: |key| < TWO_TO_THE_32 && Lookup(AfterSets(n, hashing, sets), n, hashing, key) == Faulty)
       <==> !AllReadable(sets)
  {
    forall key: Bytes | |key| < TWO_TO_THE_32
      ensures Lookup(AfterSets(n, hashing, sets), n, hashing, key) == Faulty <==>
              FirstSet(sets, key).Some? && !Readable(FirstSet(sets, key).value)
    {
      LookupIsFirstSet(n, hashing, sets, key);
    }
    hide Lookup, AfterSets, Readable, SetRecord;
    if key: Bytes :| |key| < TWO_TO_THE_32 && Lookup(AfterSets(n, hashing, sets), n, hashing, key) == Faulty {
      assert FirstSet(sets, key).value in sets;
    }
    if !AllReadable(sets) {
      var c :| c in sets && !Readable(FirstSet(sets, c.key).value);
      assert |c.key| < TWO_TO_THE_32;
    }
  }

  /**
   A Set's value is what the next lookup returns exactly if the key was not there and the record reads the value
   back, or the key held that value already.
   */
  lemma SetVisibleIff(n: nat, hashing: Hashing, sets: seq<SetContext>, c: SetContext)
    requires n >= 64 && n % 8 == 0
    requires (forall s <- sets :: Storable(s)) && Storable(c)
    ensures var before := AfterSets(n, hashing, sets);
            Lookup(AfterSet(before, n, hashing, c), n, hashing, c.key) == Ok(c.value) <==>
            if Lookup(before, n, hashing, c.key) == NotFound
            then NumberFits(c.number, c.value)
                 || (|Encode(c.number)| < |Encode(|c.value|)| && c.value == Spaces(|c.value|))
            else Lookup(before, n, hashing, c.key) == Ok(c.value)
  {
    var more := sets + [c];
    assert more[..|sets|] == sets;
    assert FirstSet(more, c.key) == if FirstSet(sets, c.key).None? then Some(c) else FirstSet(sets, c.key);
    assert AfterSets(n, hashing, more) == AfterSet(AfterSets(n, hashing, sets), n, hashing, c);
    LookupIsFirstSet(n, hashing, sets, c.key);
    LookupIsFirstSet(n, hashing, more, c.key);
    ReadBackIsValueIff(c);
    hide AfterSets, AfterSet, FirstSet, Lookup, Encode, Spaces, ReadBack;
  }

  lemma ReadBackIsValueIff(c: SetContext)
    ensures AnswerOfSet(c) == Ok(c.value) <==>
            NumberFits(c.number, c.value) || (|Encode(c.number)| < |Encode(|c.value|)| && c.value == Spaces(|c.value|))
  {
    hide Encode;
    if Readable(c) {
      ShiftedIffSpaces(c.value, |Encode(|c.value|)| - |Encode(c.number)|);
    }
    hide Spaces;
  }
}
