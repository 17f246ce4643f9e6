/**
 The ring log: records are written one after the other until their sizes reach the limit; the record that
 reaches it is written at the front of the file again, over an earlier lap, and is not counted.
 */
module WalRing {
  import opened Common
  import opened Varint
  import opened MemtableRecord
  import opened WalRecord

  // --- Laps ------------------------------------------------------------------------------------------

  function Latest(laps: seq<seq<Bytes>>): seq<Bytes>
    requires laps != []
  {
    laps[|laps| - 1]
  }

  /** What the size counter holds: the file found at the start counts for the first lap, the first record of a later lap does not. */
  function Counted(found: nat, laps: seq<seq<Bytes>>): nat
    requires laps != []
  {
    if |laps| == 1 then found + |Joined(laps[0])|
    else if Latest(laps) == [] then 0 else |Joined(Latest(laps)[1..])|
  }

  /** A history cut into laps: a record that would bring the count to the limit starts the next lap. */
  function LapsOf(found: nat, limit: nat, history: seq<Bytes>): (laps: seq<seq<Bytes>>)
    ensures laps != []
  {
    if history == [] then [[]]
    else
      var laps := LapsOf(found, limit, history[..|history| - 1]);
      var record := history[|history| - 1];
      if limit <= Counted(found, laps) + |record| then laps + [[record]]
      else laps[..|laps| - 1] + [Latest(laps) + [record]]
  }

  /** Bytes written from the front of a file. */
  function Laid(file: Bytes, bytes: Bytes): (r: Bytes)
    ensures |bytes| <= |r|
  {
    bytes + if |bytes| <= |file| then file[|bytes|..] else []
  }

  /** The file after whole laps, each written from the front over the ones before. */
  function OnDisk(found: Bytes, laps: seq<seq<Bytes>>): Bytes {
    if laps == [] then found else Laid(OnDisk(found, laps[..|laps| - 1]), Joined(laps[|laps| - 1]))
  }

  /** How the laps of a history grow with one more record. */
  lemma LapsGrow(found: nat, limit: nat, history: seq<Bytes>, record: Bytes)
    ensures var laps := LapsOf(found, limit, history);
            LapsOf(found, limit, history + [record]) ==
            if limit <= Counted(found, laps) + |record| then laps + [[record]]
            else laps[..|laps| - 1] + [Latest(laps) + [record]]
  {
    assert (history + [record])[..|history|] == history;
  }

  lemma JoinedLater(laps: seq<seq<Bytes>>, record: Bytes)
    requires laps != []
    ensures Joined(laps[..|laps| - 1] + [Latest(laps) + [record]]) == Joined(laps) + [record]
  {
    var laps1 := laps[..|laps| - 1] + [Latest(laps) + [record]];
    assert laps1[..|laps| - 1] == laps[..|laps| - 1];
    assert Joined(laps1) == Joined(laps[..|laps| - 1]) + (Latest(laps) + [record]);
  }

  /** Nothing is lost or reordered by the cut. */
  lemma {:induction false} LapsAreTheHistory(found: nat, limit: nat, history: seq<Bytes>)
    ensures Joined(LapsOf(found, limit, history)) == history
  {
    if history == [] {
      assert LapsOf(found, limit, history)[..0] == [];
    } else {
      var front, record := history[..|history| - 1], history[|history| - 1];
      LapsAreTheHistory(found, limit, front);
      assert front + [record] == history;
      LapsGrow(found, limit, front, record);
      hide LapsOf, Joined, Counted;
      JoinedMore(LapsOf(found, limit, front), [record]);
      JoinedLater(LapsOf(found, limit, front), record);
    }
  }

  lemma JoinedFirst(records: seq<Bytes>)
    requires records != []
    ensures |Joined(records)| == |records[0]| + |Joined(records[1..])|
  {
    if |records| == 1 {
      assert records[..0] == [] && records[1..] == [];
    } else {
      JoinedFirst(records[..|records| - 1]);
      assert records[..|records| - 1][1..] == records[1..][..|records| - 2];
    }
  }

  lemma CountedGrows(found: nat, laps: seq<seq<Bytes>>, record: Bytes)
    requires laps != [] && (|laps| > 1 ==> Latest(laps) != [])
    ensures var laps1 := laps[..|laps| - 1] + [Latest(laps) + [record]];
            Counted(found, laps1) == Counted(found, laps) + |record|
  {
    var latest := Latest(laps);
    assert (latest + [record])[..|latest|] == latest;
    if |laps| > 1 {
      assert (latest + [record])[1..] == latest[1..] + [record];
      assert (latest[1..] + [record])[..|latest| - 1] == latest[1..];
    }
  }

  /** The count stays below the limit, and the lap ends before the limit plus its first record. */
  lemma {:induction false} LapStaysBelow(found: nat, limit: nat, history: seq<Bytes>)
    requires 0 < limit && (found < limit || history != [])
    ensures var laps := LapsOf(found, limit, history);
            && Counted(found, laps) < limit
            && (|laps| > 1 ==> Latest(laps) != [] && |Joined(Latest(laps))| < limit + |Latest(laps)[0]|)
            && (|laps| == 1 ==> |Joined(Latest(laps))| < limit)
  {
    if history != [] {
      var front, record := history[..|history| - 1], history[|history| - 1];
      var before, laps := LapsOf(found, limit, front), LapsOf(found, limit, history);
      if limit <= Counted(found, before) + |record| {
        assert Latest(laps)[1..] == [];
      } else {
        LapStaysBelow(found, limit, front);
        CountedGrows(found, before, record);
      }
      if |laps| > 1 {
        JoinedFirst(Latest(laps));
      }
    }
  }

  /**
   Where a history is cut: a lap, counted with what was found for the first and without its first record for a later
   one, stays below the limit, and with the first record of the next lap it would reach it.
   */
  lemma {:induction false} LapsCutAtTheLimit(found: nat, limit: nat, history: seq<Bytes>, p: nat)
    requires p < |LapsOf(found, limit, history)|
    ensures var laps := LapsOf(found, limit, history);
            && (p > 0 ==> laps[p] != [])
            && (p == 0 && laps[0] != [] ==> found + |Joined(laps[0])| < limit)
            && (p > 0 ==> |Joined(laps[p][1..])| < limit || limit == 0)
            && (p + 1 < |laps| ==>
                  && laps[p + 1] != []
                  && limit <= (if p == 0 then found + |Joined(laps[0])| else |Joined(laps[p][1..])|) + |laps[p + 1][0]|)
    decreases |history|
  {
    if history != [] {
      var front, record := history[..|history| - 1], history[|history| - 1];
      var before, laps := LapsOf(found, limit, front), LapsOf(found, limit, history);
      LapsNonEmpty(found, limit, front);
      if p < |before| {
        LapsCutAtTheLimit(found, limit, front, p);
      }
      CountedGrows(found, before, record);
      hide LapsOf;
      if p + 1 == |before| {
        CountedIs(found, before);
      }
      if p + 1 == |laps| {
        CountedIs(found, laps);
      }
      OneRecord(record);
    } else {
      assert LapsOf(found, limit, []) == [[]];
    }
  }

  lemma CountedIs(found: nat, laps: seq<seq<Bytes>>)
    requires laps != [] && (|laps| > 1 ==> Latest(laps) != [])
    ensures Counted(found, laps) ==
            if |laps| == 1 then found + |Joined(laps[0])| else |Joined(laps[|laps| - 1][1..])|
  {
  }

  lemma OneRecord(record: Bytes)
    ensures [record][1..] == [] && Joined<Byte>([]) == []
  {
  }

  // --- The objects -----------------------------------------------------------------------------------

  class WalLog {
    var file: Bytes
    var offset: nat

    ghost predicate Valid()
      reads this
    {
      offset <= |file|
    }

    constructor (found: Bytes)
      ensures Valid() && file == found && offset == 0
    {
      file, offset := found, 0;
    }

    /** A write at the file offset, which moves past it. */
    method AddRecord(data: Bytes)
      requires Valid()
      modifies this
      ensures Valid() && offset == old(offset) + |data|
      ensures file == Laid(old(file), old(file[..offset]) + data)
    {
      var rest := if offset + |data| <= |file| then file[offset + |data|..] else [];
      file := file[..offset] + data + rest;
      offset := offset + |data|;
    }

    method SeekBegin()
      modifies `offset
      ensures offset == 0
    {
      offset := 0;
    }
  }

  class WalWriter {
    const walLogSize: nat
    const walFile: WalLog
    var currentLogSize: nat
    ghost const found: Bytes
    ghost var history: seq<Bytes>

    ghost function Laps(): (laps: seq<seq<Bytes>>)
      reads this
      ensures laps != []
    {
      LapsOf(|found|, walLogSize, history)
    }

    ghost predicate Valid()
      reads this, walFile
    {
      && currentLogSize == Counted(|found|, Laps())
      && walFile.file == OnDisk(found, Laps())
      && walFile.offset == |Joined(Latest(Laps()))|
      && walFile.offset <= |walFile.file|
    }

    /** The file found is opened at its front, although its size is counted. */
    constructor (limit: nat, onDisk: Bytes)
      requires limit < TWO_TO_THE_32 && |onDisk| < TWO_TO_THE_32
      ensures Valid() && fresh(walFile) && walLogSize == limit && found == onDisk && history == []
      ensures currentLogSize == |onDisk|
    {
      walLogSize := limit;
      walFile := new WalLog(onDisk);
      currentLogSize := |onDisk|;
      found := onDisk;
      history := [];
      new;
      assert Laps()[..0] == [];
    }

    method AddRecord(record: Bytes)
      requires Valid() && currentLogSize + |record| < TWO_TO_THE_32
      modifies this, walFile
      ensures Valid() && history == old(history) + [record]
      ensures currentLogSize == 0 || currentLogSize < walLogSize
    {
      RecordAdded(found, walLogSize, history, record);
      hide LapsOf, OnDisk, Joined, Counted, Laid, Latest;
      currentLogSize := (currentLogSize + |record|) % TWO_TO_THE_32;
      if currentLogSize >= walLogSize {
        walFile.SeekBegin();
        currentLogSize := 0;
      }
      walFile.AddRecord(record);
      history := history + [record];
    }
  }

  // --- A log that was found --------------------------------------------------------------------------

  /** A found log is kept in front of the first record written exactly if one of the two is empty. */
  lemma FoundIsKeptIff(found: Bytes, limit: nat, record: Bytes)
    ensures OnDisk(found, LapsOf(|found|, limit, [record])) == found + record <==> found == [] || record == []
  {
    RecordAdded(found, limit, [], record);
    assert [] + [record] == [record];
    var none := LapsOf(|found|, limit, []);
    assert none[..0] == [] && Latest(none) == [];
    assert OnDisk(found, none) == Laid(found, []) == found;
    assert OnDisk(found, LapsOf(|found|, limit, [record])) == Laid(found, found[..0] + record);
    hide LapsOf, OnDisk;
    assert found[..0] + record == record;
    LaidIsAppendedIff(found, record);
  }

  lemma LaidIsAppendedIff(file: Bytes, bytes: Bytes)
    ensures Laid(file, bytes) == file + bytes <==> file == [] || bytes == []
  {
    if file != [] && bytes != [] {
      assert |Laid(file, bytes)| < |file + bytes|;
    } else if bytes == [] {
      assert file + bytes == file == Laid(file, bytes);
    } else {
      assert file + bytes == bytes == Laid(file, bytes);
    }
  }

  /** One byte on disk and one byte written: the byte on disk is gone. */
  lemma FoundIsOverwritten()
    ensures OnDisk([1], LapsOf(1, 100, [[2]])) == [2]
  {
    var found: Bytes, record: Bytes := [1], [2];
    RecordAdded(found, 100, [], record);
    assert [] + [record] == [record];
    var none := LapsOf(1, 100, []);
    assert none[..0] == [] && Latest(none) == [];
    assert OnDisk(found, none) == Laid(found, []) == found;
    hide LapsOf, OnDisk;
    assert found[..0] + record == record;
    assert Laid(found, record) == [2];
  }

  lemma JoinedFew(a: Bytes, b: Bytes)
    ensures Joined([a]) == a && Joined([a, b]) == a + b && Joined<Byte>([]) == []
  {
    assert [a][..0] == [] && [a, b][..1] == [a];
    assert [] + a == a;
  }

  /** A second lap over a longer first one: the third record follows the second, and what they do not reach stays. */
  lemma SecondLapOverFirst(a: Bytes, b: Bytes, c: Bytes)
    requires |a| == 3 && |b| == |c| == 1
    ensures LapsOf(0, 4, [a, b, c]) == [[a], [b, c]]
    ensures OnDisk([], [[a], [b, c]]) == b + c + a[2..]
  {
    LapsOfThree(a, b, c);
    JoinedFew(a, b);
    JoinedFew(b, c);
    hide LapsOf, Joined;
    assert [[a], [b, c]][..1] == [[a]] && [[a]][..0] == [];
    assert OnDisk([], [[a]]) == Laid([], a) == a;
  }

  lemma CountedFew(a: Bytes, b: Bytes)
    ensures Counted(0, [[]]) == 0 && Counted(0, [[a]]) == |a| && Counted(0, [[a], [b]]) == 0
  {
    JoinedFew(a, b);
    assert [b][1..] == [];
    hide Joined;
  }

  lemma LapsOfOne(a: Bytes)
    requires |a| < 4
    ensures LapsOf(0, 4, [a]) == [[a]]
  {
    assert [a][..0] == [];
    var laps := LapsOf(0, 4, []);
    assert laps == [[]];
    CountedFew(a, a);
    hide Counted;
    assert laps[..0] == [] && Latest(laps) + [a] == [a];
  }

  lemma LapsOfTwo(a: Bytes, b: Bytes)
    requires |a| == 3 && |b| == 1
    ensures LapsOf(0, 4, [a, b]) == [[a], [b]]
  {
    CountedFew(a, b);
    LapsOfOne(a);
    LapsGrow(0, 4, [a], b);
    hide LapsOf, Counted, Latest;
    assert [a] + [b] == [a, b];
    assert [[a]] + [[b]] == [[a], [b]];
  }

  lemma LapsOfThree(a: Bytes, b: Bytes, c: Bytes)
    requires |a| == 3 && |b| == |c| == 1
    ensures LapsOf(0, 4, [a, b, c]) == [[a], [b, c]]
  {
    var two: seq<seq<Bytes>> := [[a], [b]];
    CountedFew(a, b);
    LapsOfTwo(a, b);
    LapsGrow(0, 4, [a, b], c);
    hide LapsOf, Counted;
    assert [a, b] + [c] == [a, b, c];
    assert [b] + [c] == [b, c] && Latest(two) == [b] && two[..1] == [[a]];
    assert [[a]] + [[b, c]] == [[a], [b, c]];
  }

  /** What one more record does to the count, the file and the offset. */
  lemma RecordAdded(found: Bytes, limit: nat, history: seq<Bytes>, record: Bytes)
    ensures var laps, laps1 := LapsOf(|found|, limit, history), LapsOf(|found|, limit, history + [record]);
            var file, n, count := OnDisk(found, laps), |Joined(Latest(laps))|, Counted(|found|, laps);
            && n <= |file|
            && (limit <= count + |record| ==>
                  && Counted(|found|, laps1) == 0
                  && |Joined(Latest(laps1))| == |record|
                  && OnDisk(found, laps1) == Laid(file, file[..0] + record))
            && (count + |record| < limit ==>
                  && Counted(|found|, laps1) == count + |record|
                  && |Joined(Latest(laps1))| == n + |record|
                  && OnDisk(found, laps1) == Laid(file, file[..n] + record))
  {
    var laps := LapsOf(|found|, limit, history);
    LapsGrow(|found|, limit, history, record);
    LapsNonEmpty(|found|, limit, history);
    hide LapsOf, OnDisk, Joined, Counted, Laid, Latest;
    NextLap(found, laps, record);
    SameLap(found, laps, record);
    CountedGrows(|found|, laps, record);
  }

  lemma {:induction false} LapsNonEmpty(found: nat, limit: nat, history: seq<Bytes>)
    ensures var laps := LapsOf(found, limit, history); |laps| > 1 ==> Latest(laps) != []
  {
    if history != [] { LapsNonEmpty(found, limit, history[..|history| - 1]); }
  }

  lemma NextLap(found: Bytes, laps: seq<seq<Bytes>>, record: Bytes)
    requires laps != []
    ensures var laps1 := laps + [[record]];
            && OnDisk(found, laps1) == Laid(OnDisk(found, laps), OnDisk(found, laps)[..0] + record)
            && Joined(Latest(laps1)) == record && Counted(|found|, laps1) == 0
            && |record| <= |OnDisk(found, laps1)|
  {
    assert (laps + [[record]])[..|laps|] == laps;
    assert [record][..0] == [] && [record][1..] == [];
    assert Joined([record]) == [] + record;
  }

  lemma SameLap(found: Bytes, laps: seq<seq<Bytes>>, record: Bytes)
    requires laps != []
    ensures var laps1 := laps[..|laps| - 1] + [Latest(laps) + [record]];
            var file, n := OnDisk(found, laps), |Joined(Latest(laps))|;
            && n <= |file|
            && OnDisk(found, laps1) == Laid(file, file[..n] + record)
            && |Joined(Latest(laps1))| == n + |record| <= |OnDisk(found, laps1)|
  {
    var laps1 := laps[..|laps| - 1] + [Latest(laps) + [record]];
    var earlier, done := OnDisk(found, laps[..|laps| - 1]), Joined(Latest(laps));
    assert laps1[..|laps| - 1] == laps[..|laps| - 1];
    assert (Latest(laps) + [record])[..|Latest(laps)|] == Latest(laps);
    LaidFurther(earlier, done, record);
  }

  lemma LaidFurther(earlier: Bytes, done: Bytes, record: Bytes)
    ensures Laid(earlier, done)[..|done|] == done
    ensures Laid(earlier, done + record) == Laid(Laid(earlier, done), done + record)
  {
  }

  // --- Reading the current lap -----------------------------------------------------------------------

  /** Before the offset stands the current lap; behind it what earlier laps left. */
  lemma CurrentLapFirst(found: Bytes, laps: seq<seq<Bytes>>)
    requires laps != []
    ensures var file, earlier, n := OnDisk(found, laps), OnDisk(found, laps[..|laps| - 1]), |Joined(Latest(laps))|;
            && n <= |file| && file[..n] == Joined(Latest(laps))
            && file[n..] == if n <= |earlier| then earlier[n..] else []
  {
  }

  function Records(es: seq<Entry>): (r: seq<Bytes>)
    ensures |r| == |es|
  {
    seq(|es|, i requires 0 <= i < |es| => LogRecord(es[i]))
  }

  lemma {:induction false} LatestIsSuffix(found: nat, limit: nat, history: seq<Bytes>)
    ensures var latest := Latest(LapsOf(found, limit, history));
            |latest| <= |history| && latest == history[|history| - |latest|..]
  {
    LapsAreTheHistory(found, limit, history);
    var laps := LapsOf(found, limit, history);
    assert history == Joined(laps[..|laps| - 1]) + Latest(laps);
  }

  lemma {:induction false} JoinedRecords(es: seq<Entry>)
    ensures Joined(Records(es)) == LogRecords(es)
  {
    if es != [] {
      hide LogRecord, LogRecords;
      var front, e := es[..|es| - 1], es[|es| - 1];
      JoinedRecords(front);
      assert Records(es)[..|es| - 1] == Records(front);
      assert es == front + [e];
      LogRecordsLast(front, e);
    }
  }

  lemma {:induction false} LogRecordsLast(es: seq<Entry>, e: Entry)
    ensures LogRecords(es + [e]) == LogRecords(es) + LogRecord(e)
  {
    hide LogRecord;
    if es == [] {
      assert [e][1..] == [];
    } else {
      LogRecordsLast(es[1..], e);
      assert (es + [e])[1..] == es[1..] + [e];
    }
  }

  /**
   After any run of set records the bytes before the offset, cut by their length fields, give back the number,
   key and value of exactly the records since the last wrap, in order.
   */
  lemma RingCutsBack(found: Bytes, limit: nat, es: seq<Entry>, laps: seq<seq<Bytes>>, file: Bytes, offset: nat)
    requires forall e | e in es :: Loggable(e)
    requires laps == LapsOf(|found|, limit, Records(es))
    requires file == OnDisk(found, laps) && offset == |Joined(Latest(laps))|
    ensures |Latest(laps)| <= |es| && offset <= |file|
    ensures Cut(file[..offset], 0) == es[|es| - |Latest(laps)|..]
  {
    LatestIsSuffix(|found|, limit, Records(es));
    CurrentLapFirst(found, laps);
    hide *;
    RecordsSuffix(es, |Latest(laps)|);
    SuffixCutsBack(file, Latest(laps), offset, es, |Latest(laps)|);
  }

  lemma SuffixCutsBack(file: Bytes, latest: seq<Bytes>, size: nat, es: seq<Entry>, n: nat)
    requires forall e | e in es :: Loggable(e)
    requires size <= |file| && file[..size] == Joined(latest)
    requires n <= |es| && latest == Records(es[|es| - n..])
    ensures Cut(file[..size], 0) == es[|es| - n..]
  {
    hide *;
    LapCutsBack(es[|es| - n..]);
  }

  lemma RecordsSuffix(es: seq<Entry>, n: nat)
    requires n <= |es|
    ensures Records(es)[|es| - n..] == Records(es[|es| - n..])
  {
  }

  lemma LapCutsBack(es: seq<Entry>)
    requires forall e | e in es :: Loggable(e)
    ensures Cut(Joined(Records(es)), 0) == es
  {
    hide *;
    JoinedRecords(es);
    HeldWhole(LogRecords(es));
    CutRecords(LogRecords(es), 0, es);
  }

  /**
   The writer at work: from any file found, after logging any list of set requests, the bytes before the offset cut
   back to the requests since the last wrap, and the bytes behind it are what the laps before left there.
   */
  method LogAll(limit: nat, onDisk: Bytes, es: seq<Entry>) returns (writer: WalWriter)
    requires limit < TWO_TO_THE_32 && |onDisk| < TWO_TO_THE_32
    requires forall e <- es ::
               Loggable(e) && limit + |LogRecord(e)| < TWO_TO_THE_32 && |onDisk| + |LogRecord(e)| < TWO_TO_THE_32
    ensures writer.Valid() && writer.found == onDisk && writer.history == Records(es)
    ensures var laps := LapsOf(|onDisk|, limit, Records(es));
            var file, offset := writer.walFile.file, writer.walFile.offset;
            var earlier := OnDisk(onDisk, laps[..|laps| - 1]);
            && |Latest(laps)| <= |es| && offset <= |file|
            && Cut(file[..offset], 0) == es[|es| - |Latest(laps)|..]
            && file[offset..] == if offset <= |earlier| then earlier[offset..] else []
  {
    hide LogRecord, Cut, LapsOf, OnDisk, Joined, Counted, Loggable;
    writer := new WalWriter(limit, onDisk);
    for i := 0 to |es|
      invariant writer.Valid() && writer.found == onDisk && writer.walLogSize == limit
      invariant fresh(writer) && fresh(writer.walFile)
      invariant writer.history == Records(es[..i])
      invariant writer.currentLogSize == 0 || writer.currentLogSize < limit || writer.currentLogSize == |onDisk|
    {
      assert es[i] in es;
      var record := SetContextWalLogFormat(es[i]);
      writer.AddRecord(record[..]);
      RecordsMore(es, i);
    }
    assert es[..|es|] == es;
    ghost var laps := LapsOf(|onDisk|, limit, Records(es));
    RingCutsBack(onDisk, limit, es, laps, writer.walFile.file, writer.walFile.offset);
    CurrentLapFirst(onDisk, laps);
  }

  lemma RecordsMore(es: seq<Entry>, i: nat)
    requires i < |es|
    ensures Records(es[..i]) + [LogRecord(es[i])] == Records(es[..i + 1])
  {
    hide LogRecord;
  }
}
