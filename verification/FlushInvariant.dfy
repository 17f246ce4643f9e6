/**
 The invariant of the flush machine, kept by every step, and so true after every run.
 */
module FlushInvariant {
  import opened Common
  import opened FlushProtocol

  // --- Rotation order ------------------------------------------------------------------------------

  /** The tables of one number among those handed over, oldest first. */
  function Rotated(handed: seq<Table>, n: nat): seq<Table>
    decreases |handed|
  {
    if handed == [] then []
    else
      var before := Rotated(handed[..|handed| - 1], n);
      var last := handed[|handed| - 1];
      if last.number == n then before + [last] else before
  }

  lemma RotatedSnoc(handed: seq<Table>, t: Table, n: nat)
    ensures Rotated(handed + [t], n) == Rotated(handed, n) + if t.number == n then [t] else []
  {
    assert (handed + [t])[..|handed|] == handed;
  }

  /** A table's level is the number of tables of its number handed over before it. */
  ghost predicate LevelsCount(handed: seq<Table>) {
    forall i: nat | i < |handed| :: handed[i].level == |Rotated(handed[..i], handed[i].number)|
  }

  lemma LevelsCountSnoc(handed: seq<Table>, t: Table)
    requires LevelsCount(handed)
    requires t.level == |Rotated(handed, t.number)|
    ensures LevelsCount(handed + [t])
  {
    var longer := handed + [t];
    forall i: nat | i < |longer|
      ensures longer[i].level == |Rotated(longer[..i], longer[i].number)|
    {
      assert longer[..i] == if i < |handed| then handed[..i] else handed;
    }
  }

  /** Every prefix of the history gives a prefix of the rotation order. */
  lemma {:induction false} RotatedPrefix(handed: seq<Table>, i: nat, n: nat)
    requires i <= |handed|
    ensures Rotated(handed[..i], n) <= Rotated(handed, n)
    decreases |handed| - i
  {
    if i == |handed| {
      assert handed[..i] == handed;
    } else {
      assert handed[..i + 1] == handed[..i] + [handed[i]];
      RotatedSnoc(handed[..i], handed[i], n);
      RotatedPrefix(handed, i + 1, n);
    }
  }

  /** A table stands in its number's rotation order at its level. */
  lemma RotatedAtLevel(handed: seq<Table>, i: nat)
    requires LevelsCount(handed) && i < |handed|
    ensures var r := Rotated(handed, handed[i].number);
            handed[i].level < |r| && r[handed[i].level] == handed[i]
  {
    var n := handed[i].number;
    assert handed[..i + 1] == handed[..i] + [handed[i]];
    RotatedSnoc(handed[..i], handed[i], n);
    RotatedPrefix(handed, i + 1, n);
  }

  /** Of two tables of a number, the one handed over later has the higher level. */
  lemma EarlierIsLower(handed: seq<Table>, earlier: nat, later: nat)
    requires LevelsCount(handed) && earlier < later < |handed|
    requires handed[earlier].number == handed[later].number
    ensures handed[earlier].level < handed[later].level
  {
    var n := handed[earlier].number;
    var upTo := handed[..earlier + 1];
    assert upTo == handed[..earlier] + [handed[earlier]];
    RotatedSnoc(handed[..earlier], handed[earlier], n);
    assert handed[..later][..earlier + 1] == upTo;
    hide Rotated;
    RotatedPrefix(handed[..later], earlier + 1, n);
  }

  lemma LevelsUnique(handed: seq<Table>, i: nat, j: nat)
    requires LevelsCount(handed) && i < |handed| && j < |handed|
    requires handed[i].number == handed[j].number && handed[i].level == handed[j].level
    ensures i == j
  {
    hide LevelsCount, Rotated;
    if i < j {
      EarlierIsLower(handed, i, j);
    } else if j < i {
      EarlierIsLower(handed, j, i);
    }
  }

  // --- The parts of the invariant --------------------------------------------------------------------

  /** One if this worker has pushed a view of number n whose removal it has not counted yet. */
  function UncountedBy(k: CompWorker, handed: seq<Table>, n: nat): nat {
    if k.mode.Counting? && k.mode.task < |handed| && handed[k.mode.task].number == n then 1 else 0
  }

  function Uncounted(comps: seq<CompWorker>, handed: seq<Table>, n: nat): nat
    decreases |comps|
  {
    if comps == [] then 0
    else Uncounted(comps[..|comps| - 1], handed, n) + UncountedBy(comps[|comps| - 1], handed, n)
  }

  lemma {:induction false} UncountedUpdate(comps: seq<CompWorker>, c: nat, k: CompWorker, handed: seq<Table>, n: nat)
    requires c < |comps|
    ensures Uncounted(comps[c := k], handed, n) + UncountedBy(comps[c], handed, n)
         == Uncounted(comps, handed, n) + UncountedBy(k, handed, n)
    decreases |comps|
  {
    hide UncountedBy;
    var last := |comps| - 1;
    if c == last {
      assert comps[c := k][..last] == comps[..last];
    } else {
      assert comps[c := k][..last] == comps[..last][c := k];
      UncountedUpdate(comps[..last], c, k, handed, n);
    }
  }

  lemma {:induction false} UncountedFrame(comps: seq<CompWorker>, handed: seq<Table>, t: Table, n: nat)
    requires forall k <- comps :: k.mode.Counting? ==> k.mode.task < |handed|
    ensures Uncounted(comps, handed + [t], n) == Uncounted(comps, handed, n)
    decreases |comps|
  {
    if comps != [] {
      UncountedFrame(comps[..|comps| - 1], handed, t, n);
    }
  }

  /**
   A worker: its read-only list is a suffix of the rotation order, the erased tables have all been
   counted, and a lookup under way has missed where it says it has.
   */
  ghost predicate WorkerOk(w: Worker, n: nat, rotated: seq<Table>, views: seq<Table>) {
    var listed := |rotated| - if w.mode == HandedOver then 1 else 0;
    && w.active.number == n
    && w.active.level == listed
    && (w.mode == HandedOver ==> rotated != [] && rotated[|rotated| - 1] == w.active)
    && |w.readonly| <= listed
    && w.readonly == rotated[listed - |w.readonly|..listed]
    && listed - |w.readonly| <= (if w.mode == Erasing then w.removeN else w.preRemoveN)
    && w.preRemoveN <= w.removeN <= |views|
    && views <= rotated
    && (w.mode.MissedActive? || w.mode.MissedReadonly? ==> w.mode.key !in w.active.entries)
    && (w.mode.MissedReadonly? ==> Newest(w.readonly, w.mode.key) == None)
  }

  function Queue(k: CompWorker): seq<nat> {
    k.work + k.bg
  }

  /** Everything a compaction worker has in hand and not yet in a view list. */
  function Tasks(k: CompWorker): set<nat> {
    (set task | task in Queue(k)) + k.inFlight + if k.mode.Viewing? then {k.mode.task} else {}
  }

  predicate Increasing(tasks: seq<nat>) {
    forall i: nat, j: nat | i < j < |tasks| :: tasks[i] < tasks[j]
  }

  /** The queue is in rotation order and behind everything that is being written. */
  predicate OrderOk(k: CompWorker) {
    && Increasing(Queue(k))
    && (forall task <- k.inFlight, later <- Queue(k) :: task < later)
    && (k.mode.Viewing? ==> k.mode.task !in k.inFlight && forall later <- Queue(k) :: k.mode.task < later)
  }

  /** A task of worker c that is not yet in its number's view list. */
  ghost predicate Unviewed(handed: seq<Table>, owners: seq<nat>, views: seq<seq<Table>>, c: nat, task: nat) {
    && task < |handed| == |owners|
    && owners[task] == c
    && handed[task].number < |views|
    && handed[task].level >= |views[handed[task].number]|
  }

  /** A task that has no sstable yet. */
  ghost predicate Unserialised(handed: seq<Table>, sstables: seq<nat>, task: nat) {
    && task < |handed|
    && handed[task].number < |sstables|
    && handed[task].level >= sstables[handed[task].number]
  }

  ghost predicate AllUnviewed(s: State, c: nat, k: CompWorker) {
    forall task <- Tasks(k) :: Unviewed(s.handed, s.owners, s.views, c, task)
  }

  ghost predicate AllUnserialised(s: State, k: CompWorker) {
    forall task <- Queue(k) :: Unserialised(s.handed, s.sstables, task)
  }

  /** A view under construction is for the place in the view list that is its table's level. */
  predicate ModeOk(s: State, mode: CompMode) {
    match mode
    case Polling => true
    case Viewing(task, size) =>
      && task < |s.handed|
      && s.handed[task].number < |s.views|
      && size == |s.views[s.handed[task].number]| == s.handed[task].level
    case Counting(task) => task < |s.handed|
  }

  ghost predicate CompOk(cfg: Config, s: State, c: nat)
    requires c < |s.comps|
  {
    var k := s.comps[c];
    OrderOk(k) && AllUnviewed(s, c, k) && AllUnserialised(s, k) && ModeOk(s, k.mode)
  }

  ghost predicate Inv(cfg: Config, s: State) {
    && WellShaped(cfg, s)
    && LevelsCount(s.handed)
    && (forall n: nat | n < cfg.numbers ::
          && WorkerOk(s.workers[n], n, Rotated(s.handed, n), s.views[n])
          && s.workers[n].removeN + Uncounted(s.comps, s.handed, n) == |s.views[n]|
          && s.sstables[n] <= |Rotated(s.handed, n)|)
    && (forall c: nat | c < cfg.compactors :: CompOk(cfg, s, c))
  }

  // --- Steps keep the invariant ------------------------------------------------------------------------

  lemma InitialInv(cfg: Config)
    requires cfg.compactors > 0
    ensures Inv(cfg, Initial(cfg))
  {
    var s := Initial(cfg);
    forall n: nat | n < cfg.numbers
      ensures WorkerOk(s.workers[n], n, Rotated(s.handed, n), s.views[n])
      ensures s.workers[n].removeN + Uncounted(s.comps, s.handed, n) == |s.views[n]|
      ensures s.sstables[n] <= |Rotated(s.handed, n)|
    {
      NoneUncounted(s.comps, s.handed, n);
      InitialWorkerOk(n);
      hide WorkerOk, Rotated, Uncounted;
    }
    forall c: nat | c < cfg.compactors ensures CompOk(cfg, s, c) {
      assert Queue(s.comps[c]) == [] && Tasks(s.comps[c]) == {};
    }
    assert LevelsCount(s.handed) && WellShaped(cfg, s);
    hide WorkerOk, Rotated, Uncounted, CompOk, LevelsCount, WellShaped, Initial;
  }

  lemma InitialWorkerOk(n: nat)
    ensures Rotated([], n) == []
    ensures WorkerOk(InitialWorker(n), n, Rotated([], n), [])
  {
  }

  lemma {:induction false} NoneUncounted(comps: seq<CompWorker>, handed: seq<Table>, n: nat)
    requires forall k <- comps :: !k.mode.Counting?
    ensures Uncounted(comps, handed, n) == 0
    decreases |comps|
  {
    if comps != [] {
      NoneUncounted(comps[..|comps| - 1], handed, n);
    }
  }

  /** A step of one task worker that leaves its counter alone. */
  lemma WorkerStepKeeps(cfg: Config, s: State, n: nat, w: Worker)
    requires Inv(cfg, s) && n < cfg.numbers
    requires w.removeN == s.workers[n].removeN
    requires WorkerOk(w, n, Rotated(s.handed, n), s.views[n])
    ensures Inv(cfg, WithWorker(s, n, w))
  {
    var s' := WithWorker(s, n, w);
    forall c: nat | c < cfg.compactors
      ensures CompOk(cfg, s', c)
    {
      assert CompOk(cfg, s, c);
    }
  }

  /** What the task worker's own steps do to the worker. */
  function WorkerAfter(w: Worker, views: seq<Table>, a: Action): Worker {
    match a
    case Write(_, entries) => if w.mode == Idle then w.(active := w.active.(entries := entries)) else w
    case GetActive(_, key) => if w.mode == Idle then GetInActive(w, key) else w
    case GetReadonly(_) => if w.mode.MissedActive? then GetInReadonly(w) else w
    case GetViews(_) => if w.mode.MissedReadonly? then GetInViews(w, views) else w
    case Erase(_) =>
      if w.mode == Idle && w.preRemoveN < w.removeN && w.removeN - w.preRemoveN <= |w.readonly| then EraseFlushed(w) else w
    case SettleCount(_) => if w.mode == Erasing then TakeOverCount(w) else w
    case ListReadonly(_) => if w.mode == HandedOver then StartNewTable(w) else w
    case _ => w
  }

  lemma EraseFlushedOk(w: Worker, n: nat, rotated: seq<Table>, views: seq<Table>)
    requires WorkerOk(w, n, rotated, views) && w.mode == Idle
    requires w.preRemoveN < w.removeN && w.removeN - w.preRemoveN <= |w.readonly|
    ensures WorkerOk(EraseFlushed(w), n, rotated, views)
  {
    var kept := EraseFlushed(w).readonly;
    assert kept == rotated[|rotated| - |kept|..|rotated|];
  }

  lemma StartNewTableOk(w: Worker, n: nat, rotated: seq<Table>, views: seq<Table>)
    requires WorkerOk(w, n, rotated, views) && w.mode == HandedOver
    ensures WorkerOk(StartNewTable(w), n, rotated, views)
  {
    var last := |rotated| - 1;
    var from := last - |w.readonly|;
    assert rotated[from..last] + [rotated[last]] == rotated[from..|rotated|];
  }

  lemma GetInReadonlyOk(w: Worker, n: nat, rotated: seq<Table>, views: seq<Table>)
    requires WorkerOk(w, n, rotated, views) && w.mode.MissedActive?
    ensures WorkerOk(GetInReadonly(w), n, rotated, views)
  {
    hide Newest;
  }

  lemma WorkerAfterOk(w: Worker, n: nat, rotated: seq<Table>, views: seq<Table>, a: Action)
    requires WorkerOk(w, n, rotated, views)
    ensures WorkerOk(WorkerAfter(w, views, a), n, rotated, views)
    ensures WorkerAfter(w, views, a).removeN == w.removeN
  {
    hide Newest;
    if a.Erase? && w.mode == Idle && w.preRemoveN < w.removeN && w.removeN - w.preRemoveN <= |w.readonly| {
      EraseFlushedOk(w, n, rotated, views);
    } else if a.ListReadonly? && w.mode == HandedOver {
      StartNewTableOk(w, n, rotated, views);
    } else if a.GetReadonly? && w.mode.MissedActive? {
      GetInReadonlyOk(w, n, rotated, views);
    }
  }

  /** The front-erase loop never takes more tables than there are. */
  lemma EraseNeverOverruns(w: Worker, n: nat, rotated: seq<Table>, views: seq<Table>)
    requires WorkerOk(w, n, rotated, views) && w.mode == Idle
    ensures w.removeN - w.preRemoveN <= |w.readonly|
  {
  }

  lemma TaskWorkerStepKeeps(cfg: Config, s: State, a: Action)
    requires Inv(cfg, s) && Enabled(cfg, s, a)
    requires a.Write? || a.GetActive? || a.GetReadonly? || a.GetViews? || a.Erase? || a.SettleCount? || a.ListReadonly?
    ensures Step(cfg, s, a).status == Running
    ensures Inv(cfg, Step(cfg, s, a))
  {
    var n := a.n;
    var w := s.workers[n];
    var rotated := Rotated(s.handed, n);
    if a.Erase? {
      EraseNeverOverruns(w, n, rotated, s.views[n]);
    }
    assert Step(cfg, s, a) == WithWorker(s, n, WorkerAfter(w, s.views[n], a));
    hide WorkerOk, CompOk, WorkerAfter, Rotated;
    WorkerAfterOk(w, n, rotated, s.views[n], a);
    WorkerStepKeeps(cfg, s, n, WorkerAfter(w, s.views[n], a));
  }

  /** A step of one compaction worker that leaves workers, views and history alone and counts nothing. */
  lemma CompStepKeeps(cfg: Config, s: State, s': State, c: nat)
    requires Inv(cfg, s) && c < cfg.compactors && WellShaped(cfg, s')
    requires s' == s.(comps := s'.comps, sstables := s'.sstables)
    requires s'.comps == s.comps[c := s'.comps[c]]
    requires s.comps[c].mode.Counting? == s'.comps[c].mode.Counting? == false
    requires forall other: nat | other < cfg.compactors :: CompOk(cfg, s', other)
    requires forall n: nat | n < cfg.numbers :: s'.sstables[n] <= |Rotated(s.handed, n)|
    ensures Inv(cfg, s')
  {
    forall n: nat | n < cfg.numbers
      ensures Uncounted(s'.comps, s'.handed, n) == Uncounted(s.comps, s.handed, n)
    {
      UncountedUpdate(s.comps, c, s'.comps[c], s.handed, n);
    }
  }

  lemma TakeQueueKeeps(cfg: Config, s: State, c: nat)
    requires Inv(cfg, s) && Enabled(cfg, s, TakeQueue(c))
    ensures Inv(cfg, Step(cfg, s, TakeQueue(c)))
  {
    var s' := Step(cfg, s, TakeQueue(c));
    hide WorkerOk, Rotated, LevelsCount, Unviewed, Unserialised, OrderOk;
    forall other: nat | other < cfg.compactors
      ensures CompOk(cfg, s', other)
    {
      assert CompOk(cfg, s, other);
      TakenQueueInOrder(s.comps[c]);
    }
    hide CompOk;
    CompStepKeeps(cfg, s, s', c);
  }

  lemma TakenQueueInOrder(k: CompWorker)
    requires k.work == []
    ensures Queue(k.(bg := [], work := k.bg)) == Queue(k)
    ensures OrderOk(k.(bg := [], work := k.bg)) == OrderOk(k)
  {
    assert k.bg + [] == k.bg == [] + k.bg;
  }

  lemma SerialiseKeeps(cfg: Config, s: State, c: nat)
    requires Inv(cfg, s) && Enabled(cfg, s, Serialise(c))
    requires Step(cfg, s, Serialise(c)).status == Running
    ensures Inv(cfg, Step(cfg, s, Serialise(c)))
  {
    var s' := Step(cfg, s, Serialise(c));
    forall other: nat | other < cfg.compactors
      ensures CompOk(cfg, s', other)
    {
      SerialiseKeepsComp(cfg, s, c, other);
    }
    hide WorkerOk, Rotated;
    assert CompOk(cfg, s, c);
    assert s.comps[c].work[0] in Queue(s.comps[c]);
    RotatedAtLevel(s.handed, s.comps[c].work[0]);
    hide LevelsCount, CompOk;
    CompStepKeeps(cfg, s, s', c);
  }

  lemma SerialiseKeepsComp(cfg: Config, s: State, c: nat, other: nat)
    requires Inv(cfg, s) && Enabled(cfg, s, Serialise(c)) && other < cfg.compactors
    requires Step(cfg, s, Serialise(c)).status == Running
    ensures CompOk(cfg, Step(cfg, s, Serialise(c)), other)
  {
    var s' := Step(cfg, s, Serialise(c));
    assert CompOk(cfg, s, c) && CompOk(cfg, s, other);
    hide WorkerOk, Rotated, LevelsCount, Unviewed, Unserialised, OrderOk, Tasks, Queue, Uncounted;
    FrontSerialised(s.comps[c]);
    forall later <- Queue(s'.comps[other])
      ensures Unserialised(s'.handed, s'.sstables, later)
    {
      if other != c {
        OtherWorkersTask(cfg, s, c, other, later);
      }
      LaterUnserialised(cfg, s, c, other, later);
    }
    hide AllUnviewed, ModeOk;
  }

  lemma OtherWorkersTask(cfg: Config, s: State, c: nat, other: nat, later: nat)
    requires Inv(cfg, s) && c < cfg.compactors && other < cfg.compactors && c != other
    requires later in Queue(s.comps[other]) && s.comps[c].work != []
    ensures later != s.comps[c].work[0]
  {
    assert CompOk(cfg, s, c) && CompOk(cfg, s, other);
    hide WorkerOk, Rotated, LevelsCount, Unserialised, OrderOk, Uncounted;
    assert s.comps[c].work[0] in Queue(s.comps[c]);
    assert Unviewed(s.handed, s.owners, s.views, c, s.comps[c].work[0]);
    assert Unviewed(s.handed, s.owners, s.views, other, later);
  }

  lemma FrontSerialised(k: CompWorker)
    requires k.work != [] && k.mode == Polling && OrderOk(k)
    ensures var k' := k.(work := k.work[1..], inFlight := k.inFlight + {k.work[0]});
            && OrderOk(k')
            && Tasks(k') == Tasks(k)
            && forall later <- Queue(k') :: later in Queue(k) && k.work[0] < later
  {
    var k' := k.(work := k.work[1..], inFlight := k.inFlight + {k.work[0]});
    var front, queue, rest := k.work[0], Queue(k), Queue(k');
    assert queue == [front] + rest;
    IncreasingFront(front, rest);
    assert forall later <- queue :: later == front || later in rest;
    assert forall later <- rest :: later in queue;
  }

  lemma IncreasingFront(front: nat, rest: seq<nat>)
    requires Increasing([front] + rest)
    ensures Increasing(rest)
    ensures forall later <- rest :: front < later
  {
    var queue := [front] + rest;
    assert forall i: nat | i < |rest| :: queue[i + 1] == rest[i];
    forall later <- rest
      ensures front < later
    {
      var i: nat :| i < |rest| && rest[i] == later;
      assert queue[0] < queue[i + 1];
    }
  }

  /** Of the queued tasks, the one serialised is the only one of its number and level. */
  lemma LaterUnserialised(cfg: Config, s: State, c: nat, other: nat, later: nat)
    requires Inv(cfg, s) && Enabled(cfg, s, Serialise(c)) && other < cfg.compactors
    requires Step(cfg, s, Serialise(c)).status == Running
    requires later in Queue(s.comps[other]) && later != s.comps[c].work[0]
    ensures Unserialised(s.handed, Step(cfg, s, Serialise(c)).sstables, later)
  {
    hide WorkerOk, Rotated, LevelsCount, OrderOk, Uncounted;
    var task := s.comps[c].work[0];
    assert CompOk(cfg, s, c) && CompOk(cfg, s, other);
    assert task in Queue(s.comps[c]);
    if s.handed[later].number == s.handed[task].number && s.handed[later].level == s.handed[task].level {
      LevelsUnique(s.handed, later, task);
    }
  }

  lemma CompleteKeeps(cfg: Config, s: State, c: nat, task: nat)
    requires Inv(cfg, s) && Enabled(cfg, s, Complete(c, task))
    requires Step(cfg, s, Complete(c, task)).status == Running
    ensures Inv(cfg, Step(cfg, s, Complete(c, task)))
  {
    var s' := Step(cfg, s, Complete(c, task));
    var k, k' := s.comps[c], s'.comps[c];
    forall other: nat | other < cfg.compactors
      ensures CompOk(cfg, s', other)
    {
      assert CompOk(cfg, s, other);
      hide WorkerOk, Rotated, LevelsCount, Unviewed, Unserialised;
      if other == c {
        assert Queue(k') == Queue(k) && Tasks(k') == Tasks(k);
      }
    }
    hide WorkerOk, Rotated, LevelsCount, CompOk;
    CompStepKeeps(cfg, s, s', c);
  }

  lemma PushViewKeeps(cfg: Config, s: State, c: nat)
    requires Inv(cfg, s) && Enabled(cfg, s, PushView(c))
    ensures Inv(cfg, Step(cfg, s, PushView(c)))
  {
    var s' := Step(cfg, s, PushView(c));
    forall n: nat | n < cfg.numbers
      ensures WorkerOk(s'.workers[n], n, Rotated(s'.handed, n), s'.views[n])
      ensures s'.workers[n].removeN + Uncounted(s'.comps, s'.handed, n) == |s'.views[n]|
    {
      PushViewKeepsWorker(cfg, s, c, n);
    }
    forall other: nat | other < cfg.compactors
      ensures CompOk(cfg, s', other)
    {
      PushViewKeepsComp(cfg, s, c, other);
    }
    hide WorkerOk, Rotated, LevelsCount, CompOk;
  }

  lemma PushViewKeepsWorker(cfg: Config, s: State, c: nat, n: nat)
    requires Inv(cfg, s) && Enabled(cfg, s, PushView(c)) && n < cfg.numbers
    ensures var s' := Step(cfg, s, PushView(c));
            && WorkerOk(s'.workers[n], n, Rotated(s'.handed, n), s'.views[n])
            && s'.workers[n].removeN + Uncounted(s'.comps, s'.handed, n) == |s'.views[n]|
  {
    var task := s.comps[c].mode.task;
    assert CompOk(cfg, s, c) && WorkerOk(s.workers[n], n, Rotated(s.handed, n), s.views[n]);
    hide CompOk, OrderOk, AllUnviewed, AllUnserialised, WorkerOk;
    RotatedAtLevel(s.handed, task);
    hide LevelsCount, Rotated;
    UncountedUpdate(s.comps, c, s.comps[c].(mode := Counting(task)), s.handed, n);
    hide Uncounted;
    if s.handed[task].number == n {
      ViewsGrow(s.workers[n], n, Rotated(s.handed, n), s.views[n]);
    }
  }

  lemma ViewsGrow(w: Worker, n: nat, rotated: seq<Table>, views: seq<Table>)
    requires WorkerOk(w, n, rotated, views) && |views| < |rotated|
    ensures WorkerOk(w, n, rotated, views + [rotated[|views|]])
  {
    assert rotated[..|views| + 1] == views + [rotated[|views|]];
  }

  lemma PushViewKeepsComp(cfg: Config, s: State, c: nat, other: nat)
    requires Inv(cfg, s) && Enabled(cfg, s, PushView(c)) && other < cfg.compactors
    ensures CompOk(cfg, Step(cfg, s, PushView(c)), other)
  {
    var s' := Step(cfg, s, PushView(c));
    var k, k' := s.comps[other], s'.comps[other];
    assert CompOk(cfg, s, c) && CompOk(cfg, s, other);
    hide WorkerOk, Rotated, LevelsCount, Unserialised, Uncounted;
    assert Queue(k') == Queue(k);
    assert s.comps[c].mode.task in Tasks(s.comps[c]);
    forall task <- Tasks(k')
      ensures Unviewed(s'.handed, s'.owners, s'.views, other, task)
    {
      PushedTaskUnique(cfg, s, c, other, task);
    }
    if k'.mode.Viewing? {
      PushedTaskUnique(cfg, s, c, other, k'.mode.task);
    }
  }

  /** The table whose view is pushed is the only one of its number and level. */
  lemma PushedTaskUnique(cfg: Config, s: State, c: nat, other: nat, task: nat)
    requires Inv(cfg, s) && Enabled(cfg, s, PushView(c)) && other < cfg.compactors
    requires task in Tasks(s.comps[other])
    requires other == c ==> task != s.comps[c].mode.task
    ensures task != s.comps[c].mode.task && task < |s.handed|
    ensures s.handed[task].number == s.handed[s.comps[c].mode.task].number
        ==> s.handed[task].level > |s.views[s.handed[task].number]|
  {
    var pushed := s.comps[c].mode.task;
    assert CompOk(cfg, s, c) && CompOk(cfg, s, other);
    assert pushed in Tasks(s.comps[c]);
    assert Unviewed(s.handed, s.owners, s.views, c, pushed) && Unviewed(s.handed, s.owners, s.views, other, task);
    hide WorkerOk, Rotated, LevelsCount, Unserialised, Uncounted, OrderOk, Tasks, Queue;
    if s.handed[task].number == s.handed[pushed].number && s.handed[task].level == s.handed[pushed].level {
      LevelsUnique(s.handed, task, pushed);
    }
  }

  lemma CountRemovalKeeps(cfg: Config, s: State, c: nat)
    requires Inv(cfg, s) && Enabled(cfg, s, CountRemoval(c))
    ensures Inv(cfg, Step(cfg, s, CountRemoval(c)))
  {
    var s' := Step(cfg, s, CountRemoval(c));
    assert CompOk(cfg, s, c);
    forall n: nat | n < cfg.numbers
      ensures WorkerOk(s'.workers[n], n, Rotated(s'.handed, n), s'.views[n])
      ensures s'.workers[n].removeN + Uncounted(s'.comps, s'.handed, n) == |s'.views[n]|
    {
      CountRemovalKeepsWorker(cfg, s, c, n);
    }
    forall other: nat | other < cfg.compactors
      ensures CompOk(cfg, s', other)
    {
      assert CompOk(cfg, s, other);
      hide Unviewed, Unserialised, LevelsCount, Rotated, WorkerOk;
      if other == c {
        assert Queue(s'.comps[c]) == Queue(s.comps[c]) && Tasks(s'.comps[c]) == Tasks(s.comps[c]);
      }
    }
    hide WorkerOk, CompOk;
  }

  lemma CountRemovalKeepsWorker(cfg: Config, s: State, c: nat, n: nat)
    requires Inv(cfg, s) && Enabled(cfg, s, CountRemoval(c)) && n < cfg.numbers
    ensures var s' := Step(cfg, s, CountRemoval(c));
            && WorkerOk(s'.workers[n], n, Rotated(s'.handed, n), s'.views[n])
            && s'.workers[n].removeN + Uncounted(s'.comps, s'.handed, n) == |s'.views[n]|
  {
    assert WorkerOk(s.workers[n], n, Rotated(s.handed, n), s.views[n]);
    hide CompOk, LevelsCount, Rotated, WorkerOk;
    UncountedUpdate(s.comps, c, s.comps[c].(mode := Polling), s.handed, n);
    hide Uncounted;
    if s.handed[s.comps[c].mode.task].number == n {
      CountOk(s.workers[n], n, Rotated(s.handed, n), s.views[n]);
    }
  }

  lemma CountOk(w: Worker, n: nat, rotated: seq<Table>, views: seq<Table>)
    requires WorkerOk(w, n, rotated, views) && w.removeN < |views|
    ensures WorkerOk(w.(removeN := w.removeN + 1), n, rotated, views)
  {
    hide Newest;
  }

  // --- Handing over ----------------------------------------------------------------------------------------

  lemma HandOverKeeps(cfg: Config, s: State, n: nat)
    requires Inv(cfg, s) && Enabled(cfg, s, HandOver(n))
    ensures Inv(cfg, Step(cfg, s, HandOver(n)))
  {
    var s' := Step(cfg, s, HandOver(n));
    HandOverKeepsHistory(cfg, s, n);
    forall m: nat | m < cfg.numbers
      ensures WorkerOk(s'.workers[m], m, Rotated(s'.handed, m), s'.views[m])
      ensures s'.workers[m].removeN + Uncounted(s'.comps, s'.handed, m) == |s'.views[m]|
      ensures s'.sstables[m] <= |Rotated(s'.handed, m)|
    {
      HandOverKeepsWorker(cfg, s, n, m);
    }
    forall other: nat | other < cfg.compactors
      ensures CompOk(cfg, s', other)
    {
      HandOverKeepsComp(cfg, s, n, other);
    }
    hide WorkerOk, CompOk, LevelsCount, Rotated, Uncounted, Step, WellShaped, Enabled;
  }

  lemma HandOverKeepsHistory(cfg: Config, s: State, n: nat)
    requires Inv(cfg, s) && Enabled(cfg, s, HandOver(n))
    ensures WellShaped(cfg, Step(cfg, s, HandOver(n)))
    ensures LevelsCount(Step(cfg, s, HandOver(n)).handed)
  {
    assert WorkerOk(s.workers[n], n, Rotated(s.handed, n), s.views[n]);
    hide LevelsCount, CompOk, Uncounted, Rotated;
    LevelsCountSnoc(s.handed, s.workers[n].active);
  }

  lemma HandOverKeepsWorker(cfg: Config, s: State, n: nat, m: nat)
    requires Inv(cfg, s) && Enabled(cfg, s, HandOver(n)) && m < cfg.numbers
    ensures var s' := Step(cfg, s, HandOver(n));
            && WorkerOk(s'.workers[m], m, Rotated(s'.handed, m), s'.views[m])
            && s'.workers[m].removeN + Uncounted(s'.comps, s'.handed, m) == |s'.views[m]|
            && s'.sstables[m] <= |Rotated(s'.handed, m)|
  {
    var s' := Step(cfg, s, HandOver(n));
    var t := s.workers[n].active;
    var ci := s.compIndex;
    assert WorkerOk(s.workers[m], m, Rotated(s.handed, m), s.views[m]);
    assert WorkerOk(s.workers[n], n, Rotated(s.handed, n), s.views[n]);
    forall k <- s.comps
      ensures k.mode.Counting? ==> k.mode.task < |s.handed|
    {
      var c: nat :| c < |s.comps| && s.comps[c] == k;
      assert CompOk(cfg, s, c);
    }
    hide CompOk, LevelsCount, Newest;
    RotatedSnoc(s.handed, t, m);
    hide Rotated;
    UncountedUpdate(s.comps, ci, s'.comps[ci], s.handed + [t], m);
    UncountedFrame(s.comps, s.handed, t, m);
    hide Uncounted;
  }

  lemma HandOverKeepsComp(cfg: Config, s: State, n: nat, other: nat)
    requires Inv(cfg, s) && Enabled(cfg, s, HandOver(n)) && other < cfg.compactors
    ensures CompOk(cfg, Step(cfg, s, HandOver(n)), other)
  {
    var s' := Step(cfg, s, HandOver(n));
    var k, k' := s.comps[other], s'.comps[other];
    var latest := |s.handed|;
    assert CompOk(cfg, s, other);
    assert WorkerOk(s.workers[n], n, Rotated(s.handed, n), s.views[n]);
    hide WorkerOk, Rotated, LevelsCount, Uncounted;
    forall task <- Tasks(k')
      ensures Unviewed(s'.handed, s'.owners, s'.views, other, task)
    {
      assert task in Tasks(k) || task == latest;
    }
    forall task <- Queue(k')
      ensures Unserialised(s'.handed, s'.sstables, task)
    {
      assert task in Queue(k) || task == latest;
    }
    if other == s.compIndex {
      assert Queue(k') == Queue(k) + [latest];
      forall task <- Tasks(k)
        ensures task < latest
      {
        assert Unviewed(s.handed, s.owners, s.views, other, task);
      }
      OrderOkSnoc(k, latest);
    }
  }

  lemma OrderOkSnoc(k: CompWorker, latest: nat)
    requires OrderOk(k) && forall task <- Tasks(k) :: task < latest
    ensures OrderOk(k.(bg := k.bg + [latest]))
    ensures Queue(k.(bg := k.bg + [latest])) == Queue(k) + [latest]
  {
    var queue, longer := Queue(k), Queue(k.(bg := k.bg + [latest]));
    assert longer == queue + [latest];
    assert forall i: nat | i < |queue| :: longer[i] == queue[i] && queue[i] in Tasks(k);
    assert forall later <- longer :: later in queue || later == latest;
    assert forall task <- k.inFlight :: task in Tasks(k);
    if k.mode.Viewing? {
      assert k.mode.task in Tasks(k);
    }
  }
}
