/**
 The objects whose locked regions are the steps of the flush machine, with their loops. Each method is
 proved to do to the object what the machine's step does to the object's abstract state.
 */
module FlushObjects {
  import opened Common
  import opened FlushProtocol

  /** Scan a list of tables from the back, stopping at the first that has the key. */
  method ScanNewestFirst(tables: seq<Table>, key: Key) returns (found: Option<Entry>)
    ensures found == Newest(tables, key)
  {
    found := None;
    var i := |tables|;
    assert tables[..i] == tables;
    while i > 0
      invariant i <= |tables|
      invariant found == None && Newest(tables[..i], key) == Newest(tables, key)
    {
      i := i - 1;
      assert tables[..i + 1][..i] == tables[..i];
      if key in tables[i].entries {
        return Some(tables[i].entries[key]);
      }
    }
  }

  /** The state of one task worker's thread, with its place in its loop. */
  class TaskWorker {
    var memtable: Table
    var readonlyVec: seq<Table>
    var removeN: nat
    var preRemoveN: nat
    var answer: Option<Option<Entry>>
    ghost var mode: Mode

    ghost function Model(): Worker
      reads this
    {
      Worker(memtable, readonlyVec, removeN, preRemoveN, mode, answer)
    }

    constructor (number: nat)
      ensures Model() == InitialWorker(number)
    {
      memtable := Table(number, 0, map[]);
      readonlyVec := [];
      removeN, preRemoveN := 0, 0;
      answer, mode := None, Idle;
    }

    /** Stage one of a lookup. */
    method GetFromMemtable(key: Key) returns (done: bool)
      modifies this
      ensures Model() == GetInActive(old(Model()), key)
      ensures done <==> key in memtable.entries
    {
      done := key in memtable.entries;
      if done {
        answer := Some(Some(memtable.entries[key]));
      } else {
        mode := MissedActive(key);
      }
    }

    /** Stage two: the read-only tables, newest first. */
    method GetFromReadonly(key: Key) returns (done: bool)
      requires mode == MissedActive(key)
      modifies this
      ensures Model() == GetInReadonly(old(Model()))
      ensures done <==> mode == Idle
    {
      var found := ScanNewestFirst(readonlyVec, key);
      done := found.Some?;
      if done {
        answer, mode := Some(found), Idle;
      } else {
        mode := MissedReadonly(key);
      }
    }

    /** Stage three: the view list as it is when its lock is taken. */
    method GetFromViews(views: MemTableViewVec, key: Key)
      requires mode == MissedReadonly(key)
      modifies this
      ensures Model() == GetInViews(old(Model()), views.memtableVec)
    {
      var found := views.GetRequest(key);
      answer, mode := Some(found), Idle;
    }

    /** Erase flushed tables from the front, one by one. */
    method EraseReadonly()
      requires preRemoveN < removeN && removeN - preRemoveN <= |readonlyVec|
      modifies this`readonlyVec, this`mode
      ensures Model() == EraseFlushed(old(Model()))
    {
      var size := removeN - preRemoveN;
      for l := 0 to size
        invariant readonlyVec == old(readonlyVec)[l..]
        invariant mode == old(mode)
      {
        readonlyVec := readonlyVec[1..];
      }
      mode := Erasing;
    }

    method SettleRemoveCount()
      modifies this`preRemoveN, this`mode
      ensures Model() == TakeOverCount(old(Model()))
    {
      preRemoveN := removeN;
      mode := Idle;
    }

    /** After the full table has gone to the compactor. */
    method ReplaceMemtable()
      modifies this
      ensures Model() == StartNewTable(old(Model()))
    {
      readonlyVec := readonlyVec + [memtable];
      memtable := Table(memtable.number, memtable.level + 1, map[]);
      mode := Idle;
    }

    /** Called by a compaction worker once the table's view is in the view list. */
    method PushRemoveReadonlyMemtable()
      modifies this`removeN
      ensures Model() == old(Model()).(removeN := old(removeN) + 1)
    {
      removeN := removeN + 1;
    }
  }

  class MemTableViewVec {
    var memtableVec: seq<Table>

    constructor ()
      ensures memtableVec == []
    {
      memtableVec := [];
    }

    /** Build a view for the next place; false if the file's level is not that place (the assertion fires). */
    method PushTableView(view: Table) returns (ok: bool)
      modifies this
      ensures ok <==> view.level == |old(memtableVec)|
      ensures memtableVec == if ok then old(memtableVec) + [view] else old(memtableVec)
    {
      ok := view.level == |memtableVec|;
      if ok {
        memtableVec := memtableVec + [view];
      }
    }

    method GetRequest(key: Key) returns (found: Option<Entry>)
      ensures found == Newest(memtableVec, key)
    {
      found := ScanNewestFirst(memtableVec, key);
    }
  }

  class SSTableManager<SSTable(0)> {
    var sstableVec: seq<seq<SSTable>>

    constructor (numbers: nat)
      ensures sstableVec == seq(numbers, _ => [])
    {
      sstableVec := seq(numbers, _ => []);
    }

    /** Push a new sstable and return the one at the level; None where the source indexes out of range. */
    method NewSSTable(number: nat, level: nat, created: SSTable) returns (r: Option<SSTable>)
      requires number < |sstableVec|
      modifies this
      ensures sstableVec == old(sstableVec)[number := old(sstableVec)[number] + [created]]
      ensures r.Some? <==> level <= |old(sstableVec)[number]|
      ensures level == |old(sstableVec)[number]| ==> r == Some(created)
      ensures level < |old(sstableVec)[number]| ==> r == Some(old(sstableVec)[number][level])
    {
      sstableVec := sstableVec[number := sstableVec[number] + [created]];
      r := if level < |sstableVec[number]| then Some(sstableVec[number][level]) else None;
    }
  }
}
