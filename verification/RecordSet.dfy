/**
 The order on encoded records, and the ordered set that memtables and views keep them in. A record is any
 string that begins with a key size and a key; the order looks at the key alone.
 */
module RecordSet {
  import opened Common
  import opened Varint
  import opened MemtableRecord

  // --- The key of a record ---------------------------------------------------------------------------

  /** What every lookup probes with: the key size and the key. */
  function Probe(key: Bytes): Bytes {
    Encode(|key|) + key
  }

  predicate Keyed(record: Bytes) {
    var size := Parse32(record, 0, 5);
    size.Found? && size.next + size.value <= |record|
  }

  function KeyOf(record: Bytes): Bytes
    requires Keyed(record)
  {
    var size := Parse32(record, 0, 5);
    record[size.next..size.next + size.value]
  }

  /** A record that begins with a probe has the probe's key. */
  lemma KeyOfProbe(key: Bytes, rest: Bytes)
    requires |key| < TWO_TO_THE_32
    ensures Keyed(Probe(key) + rest) && KeyOf(Probe(key) + rest) == key
    ensures Parse32(Probe(key) + rest, 0, 5) == Found(|key|, |Encode(|key|)|)
  {
    var record := Probe(key) + rest;
    hide Encode, Parse32;
    HeldWhole(record);
    HeldSplit(record, 0, Probe(key), rest);
    HeldSplit(record, 0, Encode(|key|), key);
    Decode32(record, 0, 5, |key|);
  }

  // --- The order -------------------------------------------------------------------------------------

  /** Byte strings in dictionary order, as string_view compares them. */
  predicate Lex(a: Bytes, b: Bytes)
    decreases |a|
  {
    if b == [] then false
    else if a == [] then true
    else if a[0] != b[0] then a[0] < b[0]
    else Lex(a[1..], b[1..])
  }

  lemma {:induction false} LexIrreflexive(a: Bytes)
    ensures !Lex(a, a)
    decreases |a|
  {
    if a != [] {
      LexIrreflexive(a[1..]);
    }
  }

  lemma {:induction false} LexTransitive(a: Bytes, b: Bytes, c: Bytes)
    requires Lex(a, b) && Lex(b, c)
    ensures Lex(a, c)
    decreases |a|
  {
    if a != [] && a[0] == b[0] == c[0] {
      LexTransitive(a[1..], b[1..], c[1..]);
    }
  }

  lemma {:induction false} LexTotal(a: Bytes, b: Bytes)
    ensures Lex(a, b) || Lex(b, a) || a == b
    decreases |a|
  {
    if a != [] && b != [] && a[0] == b[0] {
      LexTotal(a[1..], b[1..]);
      assert a == [a[0]] + a[1..] && b == [b[0]] + b[1..];
    }
  }

  /** The strings agree before k, and there the first one ends or has the smaller byte. */
  predicate LowerAt(a: Bytes, b: Bytes, k: nat) {
    k <= |a| && k < |b| && a[..k] == b[..k] && (k == |a| || a[k] < b[k])
  }

  /** One string is before another exactly if it is lower at the first place where they differ. */
  lemma {:induction false} LexIffLower(a: Bytes, b: Bytes)
    ensures Lex(a, b) <==> exists k: nat :: LowerAt(a, b, k)
    decreases |a|
  {
    if a == [] && b != [] {
      assert LowerAt(a, b, 0);
    } else if a != [] && b != [] {
      if a[0] < b[0] {
        assert LowerAt(a, b, 0);
      }
      LexIffLower(a[1..], b[1..]);
      if k: nat :| LowerAt(a[1..], b[1..], k) && a[0] == b[0] {
        assert a[..k + 1] == [a[0]] + a[1..][..k] && b[..k + 1] == [b[0]] + b[1..][..k];
        assert LowerAt(a, b, k + 1);
      }
      if k: nat :| LowerAt(a, b, k) && k > 0 {
        assert a[0] == a[..k][0] && b[0] == b[..k][0];
        assert a[1..][..k - 1] == a[..k][1..] && b[1..][..k - 1] == b[..k][1..];
        assert LowerAt(a[1..], b[1..], k - 1);
      }
    }
  }

  /** The comparator: decode the two keys, then compare them. */
  predicate Less(l: Bytes, r: Bytes)
    requires Keyed(l) && Keyed(r)
  {
    Lex(KeyOf(l), KeyOf(r))
  }

  /** The comparator is a strict weak order on encoded records, and two are equivalent when their keys agree. */
  lemma LessIsStrictWeakOrder(a: Bytes, b: Bytes, c: Bytes)
    requires Keyed(a) && Keyed(b) && Keyed(c)
    ensures !Less(a, a)
    ensures Less(a, b) && Less(b, c) ==> Less(a, c)
    ensures !Less(a, b) && !Less(b, a) <==> KeyOf(a) == KeyOf(b)
    ensures Less(a, b) ==> Less(a, c) || Less(c, b)
  {
    var x, y, z := KeyOf(a), KeyOf(b), KeyOf(c);
    hide Lex, KeyOf;
    LexIrreflexive(x);
    LexTotal(x, y);
    LexTotal(y, z);
    LexTotal(x, z);
    if Lex(x, y) && Lex(y, z) {
      LexTransitive(x, y, z);
    }
    if Lex(x, y) && Lex(z, x) {
      LexTransitive(z, x, y);
    }
    if Lex(x, y) && Lex(y, x) {
      LexTransitive(x, y, x);
    }
  }

  // --- The ordered set -------------------------------------------------------------------------------

  predicate AllKeyed(records: seq<Bytes>) {
    forall r <- records :: Keyed(r)
  }

  /** Records in strictly increasing order of their keys. */
  ghost predicate Ordered(records: seq<Bytes>) {
    AllKeyed(records) && forall i: nat, j: nat | i < j < |records| :: Less(records[i], records[j])
  }

  /** Insert where the order says; a record equivalent to one in the set is dropped. */
  function Insert(records: seq<Bytes>, record: Bytes): (r: seq<Bytes>)
    requires AllKeyed(records) && Keyed(record)
    ensures forall x <- r :: x in records || x == record
  {
    if records == [] then [record]
    else if Less(record, records[0]) then [record] + records
    else if Less(records[0], record) then [records[0]] + Insert(records[1..], record)
    else records
  }

  /** The record equivalent to the probe, if there is one. */
  function Find(records: seq<Bytes>, probe: Bytes): Option<Bytes>
    requires AllKeyed(records) && Keyed(probe)
  {
    if records == [] then None
    else if Less(records[0], probe) then Find(records[1..], probe)
    else if Less(probe, records[0]) then None
    else Some(records[0])
  }

  lemma {:induction false} InsertOrdered(records: seq<Bytes>, record: Bytes)
    requires Ordered(records) && Keyed(record)
    ensures Ordered(Insert(records, record))
  {
    hide Keyed, Less;
    if records != [] {
      var head, rest := records[0], records[1..];
      LessIsStrictWeakOrder(record, head, record);
      if Less(head, record) {
        InsertOrdered(rest, record);
        assert forall x <- rest :: Less(head, x);
      } else if Less(record, head) {
        forall x <- rest
          ensures Less(record, x)
        {
          LessIsStrictWeakOrder(record, head, x);
        }
      }
    }
  }

  /** After inserting, a probe with the record's key finds what was there before, or else the record. */
  lemma {:induction false} FindInsert(records: seq<Bytes>, record: Bytes, probe: Bytes)
    requires Ordered(records) && Keyed(record) && Keyed(probe)
    ensures Find(Insert(records, record), probe) ==
            if Find(records, probe).None? && KeyOf(record) == KeyOf(probe) then Some(record) else Find(records, probe)
  {
    hide Keyed, Less, KeyOf;
    LessIsStrictWeakOrder(record, probe, record);
    LessIsStrictWeakOrder(probe, record, probe);
    if records != [] {
      var head, rest := records[0], records[1..];
      LessIsStrictWeakOrder(record, head, probe);
      LessIsStrictWeakOrder(head, record, probe);
      LessIsStrictWeakOrder(probe, head, record);
      if Less(head, record) {
        FindInsert(rest, record, probe);
      }
    }
  }

  lemma {:induction false} FindHasKey(records: seq<Bytes>, probe: Bytes)
    requires AllKeyed(records) && Keyed(probe)
    ensures Find(records, probe).Some? ==>
              Find(records, probe).value in records && KeyOf(Find(records, probe).value) == KeyOf(probe)
  {
    hide Keyed, Less, KeyOf;
    if records != [] {
      LessIsStrictWeakOrder(records[0], probe, probe);
      FindHasKey(records[1..], probe);
    }
  }

  /** In an ordered set a probe finds a record exactly if there is one with its key. */
  lemma FindIffHas(records: seq<Bytes>, probe: Bytes)
    requires Ordered(records) && Keyed(probe)
    ensures Find(records, probe).Some? <==> exists r <- records :: KeyOf(r) == KeyOf(probe)
  {
    FindHasKey(records, probe);
    if r :| r in records && KeyOf(r) == KeyOf(probe) {
      var i: nat :| i < |records| && records[i] == r;
      FindOwn(records, i, probe);
    }
  }

  /** In an ordered set, finding is having: a record is found by its own key. */
  lemma {:induction false} FindOwn(records: seq<Bytes>, i: nat, probe: Bytes)
    requires Ordered(records) && i < |records| && Keyed(probe) && KeyOf(probe) == KeyOf(records[i])
    ensures Find(records, probe) == Some(records[i])
  {
    hide Keyed, Less, KeyOf;
    LessIsStrictWeakOrder(records[i], probe, records[0]);
    LessIsStrictWeakOrder(records[0], records[i], probe);
    if i > 0 {
      FindOwn(records[1..], i - 1, probe);
    }
  }
}
