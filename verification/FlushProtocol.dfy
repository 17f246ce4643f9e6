/**
 How a full table travels from a task worker to the view list: active table, read-only list, compaction
 queue, asynchronous write, view list, and back to the worker as a removal count.

 One step of the machine is what one thread does between two points where another thread can interfere.
 Tables are finite maps from keys to entries. Any number of task workers (one for each table number) and
 of compaction workers takes part, and writes complete in any order.
 */
module FlushProtocol {

  import opened Common

  type Key = string
  type Value = string

  /** What a table says of a key: its value, or that it was deleted. */
  datatype Entry = Live(value: Value) | Deleted

  type Entries = map<Key, Entry>

  datatype Table = Table(number: nat, level: nat, entries: Entries)

  datatype Config = Config(numbers: nat, compactors: nat)

  // --- State -----------------------------------------------------------------------------------------

  /** Where a task worker's thread stands. */
  datatype Mode =
    | Idle
    | MissedActive(key: Key)     // a Get found nothing in the active table
    | MissedReadonly(key: Key)   // ... nor in the read-only tables
    | Erasing                    // flushed tables are erased, the count is not yet taken over
    | HandedOver                 // the active table is with the compactor, but not yet in the read-only list

  datatype Worker = Worker(
    active: Table,
    readonly: seq<Table>,
    removeN: nat,
    preRemoveN: nat,
    mode: Mode,
    answer: Option<Option<Entry>>)

  /** A task is the position of a table in the order of handing over. */
  datatype CompMode =
    | Polling
    | Viewing(task: nat, size: nat)   // the view of a written table is built, for a view list of that size
    | Counting(task: nat)             // the view is pushed, the removal is not yet counted

  datatype CompWorker = CompWorker(bg: seq<nat>, work: seq<nat>, inFlight: set<nat>, mode: CompMode)

  /** Running, or the way the process went wrong. */
  datatype Status = Running | LevelAssertFailed | BadSstableIndex | EraseOverrun

  datatype State = State(
    workers: seq<Worker>,
    comps: seq<CompWorker>,
    compIndex: nat,
    views: seq<seq<Table>>,
    sstables: seq<nat>,      // how many sstables each number has
    handed: seq<Table>,      // every table ever handed to the compactor, in order
    owners: seq<nat>,        // which compaction worker each of them went to
    status: Status)

  function InitialWorker(n: nat): Worker {
    Worker(Table(n, 0, map[]), [], 0, 0, Idle, None)
  }

  function Initial(cfg: Config): State {
    State(seq(cfg.numbers, (n: nat) => InitialWorker(n)),
          seq(cfg.compactors, _ => CompWorker([], [], {}, Polling)),
          0,
          seq(cfg.numbers, _ => []),
          seq(cfg.numbers, _ => 0),
          [],
          [],
          Running)
  }

  // --- Steps of a task worker ------------------------------------------------------------------------

  /** The entry in the last table of the list that has the key. */
  function Newest(tables: seq<Table>, key: Key): Option<Entry>
    decreases |tables|
  {
    if tables == [] then None
    else
      var last := tables[|tables| - 1];
      if key in last.entries then Some(last.entries[key]) else Newest(tables[..|tables| - 1], key)
  }

  function GetInActive(w: Worker, key: Key): Worker {
    if key in w.active.entries then w.(answer := Some(Some(w.active.entries[key])))
    else w.(mode := MissedActive(key))
  }

  function GetInReadonly(w: Worker): Worker
    requires w.mode.MissedActive?
  {
    var found := Newest(w.readonly, w.mode.key);
    if found.Some? then w.(answer := Some(found), mode := Idle)
    else w.(mode := MissedReadonly(w.mode.key))
  }

  function GetInViews(w: Worker, views: seq<Table>): Worker
    requires w.mode.MissedReadonly?
  {
    w.(answer := Some(Newest(views, w.mode.key)), mode := Idle)
  }

  /** Erase from the front as many tables as have been counted since the last time. */
  function EraseFlushed(w: Worker): Worker
    requires w.preRemoveN <= w.removeN && w.removeN - w.preRemoveN <= |w.readonly|
  {
    w.(readonly := w.readonly[w.removeN - w.preRemoveN..], mode := Erasing)
  }

  /** The counter is read again here; it may have moved on since the tables were erased. */
  function TakeOverCount(w: Worker): Worker {
    w.(preRemoveN := w.removeN, mode := Idle)
  }

  /** List the table that was handed over, and start a new one with the next level. */
  function StartNewTable(w: Worker): Worker {
    w.(readonly := w.readonly + [w.active],
       active := Table(w.active.number, w.active.level + 1, map[]),
       mode := Idle)
  }

  // --- The machine -----------------------------------------------------------------------------------

  datatype Action =
    | Write(n: nat, entries: Entries)
    | GetActive(n: nat, key: Key)
    | GetReadonly(n: nat)
    | GetViews(n: nat)
    | Erase(n: nat)
    | SettleCount(n: nat)
    | HandOver(n: nat)
    | ListReadonly(n: nat)
    | TakeQueue(c: nat)
    | Serialise(c: nat)
    | Complete(c: nat, task: nat)
    | PushView(c: nat)
    | CountRemoval(c: nat)

  predicate WellShaped(cfg: Config, s: State) {
    && |s.workers| == |s.views| == |s.sstables| == cfg.numbers
    && |s.comps| == cfg.compactors
    && s.compIndex < cfg.compactors
    && |s.owners| == |s.handed|
    && (forall n: nat | n < cfg.numbers :: s.workers[n].active.number == n)
    && (forall task: nat | task < |s.handed| :: s.handed[task].number < cfg.numbers)
  }

  /** Is the thread that takes the step at the point of its loop where it takes it? */
  predicate Enabled(cfg: Config, s: State, a: Action)
    requires WellShaped(cfg, s)
  {
    && s.status == Running
    && match a
       case Write(n, _) => n < cfg.numbers && s.workers[n].mode == Idle
       case GetActive(n, _) => n < cfg.numbers && s.workers[n].mode == Idle
       case GetReadonly(n) => n < cfg.numbers && s.workers[n].mode.MissedActive?
       case GetViews(n) => n < cfg.numbers && s.workers[n].mode.MissedReadonly?
       case Erase(n) => n < cfg.numbers && s.workers[n].mode == Idle && s.workers[n].removeN > s.workers[n].preRemoveN
       case SettleCount(n) => n < cfg.numbers && s.workers[n].mode == Erasing
       case HandOver(n) => n < cfg.numbers && s.workers[n].mode == Idle
       case ListReadonly(n) => n < cfg.numbers && s.workers[n].mode == HandedOver
       case TakeQueue(c) => c < cfg.compactors && s.comps[c].mode == Polling && s.comps[c].work == [] && s.comps[c].bg != []
       case Serialise(c) =>
         c < cfg.compactors && s.comps[c].mode == Polling && s.comps[c].work != [] && s.comps[c].work[0] < |s.handed|
       case Complete(c, task) =>
         c < cfg.compactors && s.comps[c].mode == Polling && s.comps[c].work == [] && task in s.comps[c].inFlight && task < |s.handed|
       case PushView(c) => c < cfg.compactors && s.comps[c].mode.Viewing? && s.comps[c].mode.task < |s.handed|
       case CountRemoval(c) => c < cfg.compactors && s.comps[c].mode.Counting? && s.comps[c].mode.task < |s.handed|
  }

  function WithWorker(s: State, n: nat, w: Worker): State
    requires n < |s.workers|
  {
    s.(workers := s.workers[n := w])
  }

  function WithComp(s: State, c: nat, k: CompWorker): State
    requires c < |s.comps|
  {
    s.(comps := s.comps[c := k])
  }

  /** Hand the active table to the compaction workers in turn. */
  function HandOverTable(s: State, n: nat): State
    requires n < |s.workers| && s.compIndex < |s.comps|
  {
    var k := s.comps[s.compIndex];
    WithComp(WithWorker(s, n, s.workers[n].(mode := HandedOver)), s.compIndex, k.(bg := k.bg + [|s.handed|]))
      .(handed := s.handed + [s.workers[n].active], owners := s.owners + [s.compIndex], compIndex := (s.compIndex + 1) % |s.comps|)
  }

  /** A new sstable is pushed, and the one at the table's level is the one written to. */
  function SerialiseTable(s: State, c: nat): State
    requires c < |s.comps| && s.comps[c].work != [] && s.comps[c].work[0] < |s.handed|
    requires s.handed[s.comps[c].work[0]].number < |s.sstables|
  {
    var k := s.comps[c];
    var task := k.work[0];
    var t := s.handed[task];
    var pushed := s.sstables[t.number] + 1;
    if t.level >= pushed then s.(status := BadSstableIndex)
    else
      WithComp(s, c, k.(work := k.work[1..], inFlight := k.inFlight + {task}))
        .(sstables := s.sstables[t.number := pushed])
  }

  /** The view is built from the file; its stored level must be the size of the view list. */
  function CompleteWrite(s: State, c: nat, task: nat): State
    requires c < |s.comps| && task < |s.handed| && s.handed[task].number < |s.views|
  {
    var t := s.handed[task];
    var size := |s.views[t.number]|;
    if t.level != size then s.(status := LevelAssertFailed)
    else
      var k := s.comps[c];
      WithComp(s, c, k.(inFlight := k.inFlight - {task}, mode := Viewing(task, size)))
  }

  function PushBuiltView(s: State, c: nat): State
    requires c < |s.comps| && s.comps[c].mode.Viewing? && s.comps[c].mode.task < |s.handed|
    requires s.handed[s.comps[c].mode.task].number < |s.views|
  {
    var task := s.comps[c].mode.task;
    var t := s.handed[task];
    WithComp(s, c, s.comps[c].(mode := Counting(task))).(views := s.views[t.number := s.views[t.number] + [t]])
  }

  function CountRemovedTable(s: State, c: nat): State
    requires c < |s.comps| && s.comps[c].mode.Counting? && s.comps[c].mode.task < |s.handed|
    requires s.handed[s.comps[c].mode.task].number < |s.workers|
  {
    var n := s.handed[s.comps[c].mode.task].number;
    var w := s.workers[n];
    WithComp(WithWorker(s, n, w.(removeN := w.removeN + 1)), c, s.comps[c].(mode := Polling))
  }

  function Step(cfg: Config, s: State, a: Action): State
    requires WellShaped(cfg, s)
  {
    if !Enabled(cfg, s, a) then s
    else
      match a
      case Write(n, entries) =>
        WithWorker(s, n, s.workers[n].(active := s.workers[n].active.(entries := entries)))
      case GetActive(n, key) => WithWorker(s, n, GetInActive(s.workers[n], key))
      case GetReadonly(n) => WithWorker(s, n, GetInReadonly(s.workers[n]))
      case GetViews(n) => WithWorker(s, n, GetInViews(s.workers[n], s.views[n]))
      case Erase(n) =>
        var w := s.workers[n];
        if w.removeN - w.preRemoveN > |w.readonly| then s.(status := EraseOverrun) else WithWorker(s, n, EraseFlushed(w))
      case SettleCount(n) => WithWorker(s, n, TakeOverCount(s.workers[n]))
      case HandOver(n) => HandOverTable(s, n)
      case ListReadonly(n) => WithWorker(s, n, StartNewTable(s.workers[n]))
      case TakeQueue(c) => WithComp(s, c, s.comps[c].(bg := [], work := s.comps[c].bg))
      case Serialise(c) => SerialiseTable(s, c)
      case Complete(c, task) => CompleteWrite(s, c, task)
      case PushView(c) => PushBuiltView(s, c)
      case CountRemoval(c) => CountRemovedTable(s, c)
  }
}
