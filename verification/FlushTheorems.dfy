/**
 What holds in every run of the flush machine, whatever the interleaving and the order of completions.
 */
module FlushTheorems {
  import opened Common
  import opened FlushProtocol
  import opened FlushInvariant

  // --- Runs ------------------------------------------------------------------------------------------

  lemma FaultKeeps(cfg: Config, s: State, status: Status)
    requires Inv(cfg, s)
    ensures Inv(cfg, s.(status := status))
  {
    var s' := s.(status := status);
    forall c: nat | c < cfg.compactors
      ensures CompOk(cfg, s', c)
    {
      assert CompOk(cfg, s, c);
    }
    hide WorkerOk, Rotated, LevelsCount, CompOk;
  }

  lemma StepKeeps(cfg: Config, s: State, a: Action)
    requires Inv(cfg, s)
    ensures Inv(cfg, Step(cfg, s, a))
  {
    if Enabled(cfg, s, a) {
      if Step(cfg, s, a).status != Running {
        assert Step(cfg, s, a) == s.(status := Step(cfg, s, a).status);
        hide Inv, Step, Enabled;
        FaultKeeps(cfg, s, Step(cfg, s, a).status);
      } else {
        hide Inv, Step, Enabled;
        match a
        case HandOver(n) => HandOverKeeps(cfg, s, n);
        case TakeQueue(c) => TakeQueueKeeps(cfg, s, c);
        case Serialise(c) => SerialiseKeeps(cfg, s, c);
        case Complete(c, task) => CompleteKeeps(cfg, s, c, task);
        case PushView(c) => PushViewKeeps(cfg, s, c);
        case CountRemoval(c) => CountRemovalKeeps(cfg, s, c);
        case _ => TaskWorkerStepKeeps(cfg, s, a);
      }
    }
  }

  /** The state after a run of steps; a step whose thread is elsewhere changes nothing. */
  function RunFrom(cfg: Config, s: State, actions: seq<Action>): (r: State)
    requires WellShaped(cfg, s)
    ensures WellShaped(cfg, r)
    decreases |actions|
  {
    if actions == [] then s
    else
      var before := RunFrom(cfg, s, actions[..|actions| - 1]);
      StepKeepsShape(cfg, before, actions[|actions| - 1]);
      Step(cfg, before, actions[|actions| - 1])
  }

  lemma StepKeepsShape(cfg: Config, s: State, a: Action)
    requires WellShaped(cfg, s)
    ensures WellShaped(cfg, Step(cfg, s, a))
  {
  }

  lemma {:induction false} RunKeeps(cfg: Config, s: State, actions: seq<Action>)
    requires Inv(cfg, s)
    ensures Inv(cfg, RunFrom(cfg, s, actions))
    decreases |actions|
  {
    hide Step, LevelsCount, WorkerOk, CompOk;
    if actions != [] {
      RunKeeps(cfg, s, actions[..|actions| - 1]);
      StepKeeps(cfg, RunFrom(cfg, s, actions[..|actions| - 1]), actions[|actions| - 1]);
    }
  }

  /** The state after a run from the start. */
  function Run(cfg: Config, actions: seq<Action>): (s: State)
    requires cfg.compactors > 0
    ensures WellShaped(cfg, s)
  {
    RunFrom(cfg, Initial(cfg), actions)
  }

  lemma Reachable(cfg: Config, actions: seq<Action>)
    requires cfg.compactors > 0
    ensures Inv(cfg, Run(cfg, actions))
  {
    InitialInv(cfg);
    RunKeeps(cfg, Initial(cfg), actions);
  }

  // --- No flushed table is ever invisible ---------------------------------------------------------------

  /** Every table handed over can be found: it is still active, read-only, or in the view list. */
  lemma HandedTablesVisible(cfg: Config, actions: seq<Action>, task: nat)
    requires cfg.compactors > 0
    requires task < |Run(cfg, actions).handed|
    ensures var s := Run(cfg, actions);
            var t := s.handed[task];
            var w := s.workers[t.number];
            t in w.readonly || t in s.views[t.number] || (w.mode == HandedOver && t == w.active)
  {
    Reachable(cfg, actions);
    var s := Run(cfg, actions);
    var t := s.handed[task];
    var w := s.workers[t.number];
    hide Run;
    RotatedAtLevel(s.handed, task);
    var rotated := Rotated(s.handed, t.number);
    assert WorkerOk(w, t.number, rotated, s.views[t.number]);
    hide Inv, Rotated, LevelsCount;
    var listed := |rotated| - if w.mode == HandedOver then 1 else 0;
    if t.level < |s.views[t.number]| {
      assert s.views[t.number][t.level] == t;
    } else if t.level < listed {
      assert w.readonly[t.level - (listed - |w.readonly|)] == t;
    }
  }

  // --- Lookups -----------------------------------------------------------------------------------------

  /** All tables of a number ever filled, oldest first, the active one last. */
  function AllTables(cfg: Config, s: State, n: nat): seq<Table>
    requires WellShaped(cfg, s) && n < cfg.numbers
  {
    Rotated(s.handed, n) + if s.workers[n].mode == HandedOver then [] else [s.workers[n].active]
  }

  /** Newer tables override older ones. */
  function Overlay(tables: seq<Table>): Entries
    decreases |tables|
  {
    if tables == [] then map[] else Overlay(tables[..|tables| - 1]) + tables[|tables| - 1].entries
  }

  function LookUp(entries: Entries, key: Key): Option<Entry> {
    if key in entries then Some(entries[key]) else None
  }

  /**
   What the writes of a run left in each table of a number, oldest first: the last write before the table was
   replaced, or nothing. Of the machine this uses no more than which steps are taken.
   */
  function Filled(cfg: Config, actions: seq<Action>, n: nat): (fills: seq<Entries>)
    requires cfg.compactors > 0 && n < cfg.numbers
    ensures fills != []
    decreases |actions|
  {
    if actions == [] then [map[]]
    else
      var before, a := Filled(cfg, actions[..|actions| - 1], n), actions[|actions| - 1];
      if !Enabled(cfg, Run(cfg, actions[..|actions| - 1]), a) then before
      else
        match a
        case Write(m, entries) => if m == n then before[..|before| - 1] + [entries] else before
        case ListReadonly(m) => if m == n then before + [map[]] else before
        case _ => before
  }

  /** Newer fills override older ones. */
  function Override(fills: seq<Entries>): Entries {
    if fills == [] then map[] else Override(fills[..|fills| - 1]) + fills[|fills| - 1]
  }

  function EntriesOf(tables: seq<Table>): (fills: seq<Entries>)
    ensures |fills| == |tables|
  {
    seq(|tables|, i requires 0 <= i < |tables| => tables[i].entries)
  }

  lemma {:induction false} OverlayIsOverride(tables: seq<Table>)
    ensures Overlay(tables) == Override(EntriesOf(tables))
    decreases |tables|
  {
    if tables != [] {
      OverlayIsOverride(tables[..|tables| - 1]);
      assert EntriesOf(tables)[..|tables| - 1] == EntriesOf(tables[..|tables| - 1]);
    }
  }

  /** A step leaves the tables of a number as they are, unless it is a write or starts a new table. */
  lemma OthersLeaveTables(cfg: Config, s: State, n: nat, a: Action)
    requires WellShaped(cfg, s) && n < cfg.numbers
    requires !(a.Write? && a.n == n) && !(a.ListReadonly? && a.n == n)
    ensures WellShaped(cfg, Step(cfg, s, a))
    ensures AllTables(cfg, Step(cfg, s, a), n) == AllTables(cfg, s, n)
  {
    StepKeepsShape(cfg, s, a);
    if Enabled(cfg, s, a) && a.HandOver? {
      RotatedSnoc(s.handed, s.workers[a.n].active, n);
    }
    hide Rotated;
  }

  /** The tables of a number hold exactly what the writes of the run left in them. */
  lemma {:induction false} TablesHoldWhatWasWritten(cfg: Config, actions: seq<Action>, n: nat)
    requires cfg.compactors > 0 && n < cfg.numbers
    ensures EntriesOf(AllTables(cfg, Run(cfg, actions), n)) == Filled(cfg, actions, n)
    decreases |actions|
  {
    if actions == [] {
      assert EntriesOf(AllTables(cfg, Run(cfg, []), n)) == [map[]];
    } else {
      var front, a := actions[..|actions| - 1], actions[|actions| - 1];
      TablesHoldWhatWasWritten(cfg, front, n);
      var s := Run(cfg, front);
      StepKeepsShape(cfg, s, a);
      assert Run(cfg, actions) == Step(cfg, s, a);
      hide Run;
      if (a.Write? || a.ListReadonly?) && a.n == n {
        OwnStepFills(cfg, s, n, a);
      } else {
        OthersLeaveTables(cfg, s, n, a);
      }
    }
  }

  lemma OwnStepFills(cfg: Config, s: State, n: nat, a: Action)
    requires WellShaped(cfg, s) && n < cfg.numbers && (a.Write? || a.ListReadonly?) && a.n == n
    ensures WellShaped(cfg, Step(cfg, s, a))
    ensures var fills, fills' := EntriesOf(AllTables(cfg, s, n)), EntriesOf(AllTables(cfg, Step(cfg, s, a), n));
            if !Enabled(cfg, s, a) then fills' == fills
            else if a.Write? then fills != [] && fills' == fills[..|fills| - 1] + [a.entries]
            else fills' == fills + [map[]]
  {
    StepKeepsShape(cfg, s, a);
    hide Rotated;
  }

  /** Scanning newest first is looking up in the overlay. */
  lemma {:induction false} NewestIsOverlay(tables: seq<Table>, key: Key)
    ensures Newest(tables, key) == LookUp(Overlay(tables), key)
    decreases |tables|
  {
    if tables != [] {
      NewestIsOverlay(tables[..|tables| - 1], key);
    }
  }

  lemma {:induction false} NewestOfConcat(early: seq<Table>, late: seq<Table>, key: Key)
    ensures Newest(early + late, key) == if Newest(late, key).Some? then Newest(late, key) else Newest(early, key)
    decreases |late|
  {
    if late == [] {
      assert early + late == early;
    } else {
      var last := |late| - 1;
      assert (early + late)[..|early + late| - 1] == early + late[..last];
      NewestOfConcat(early, late[..last], key);
    }
  }

  /** Missing in a suffix of the history and then scanning a prefix that overlaps it finds what a full scan finds. */
  lemma NewestInViews(rotated: seq<Table>, from: nat, viewed: nat, key: Key)
    requires from <= viewed <= |rotated|
    requires Newest(rotated[from..], key) == None
    ensures Newest(rotated[..viewed], key) == Newest(rotated, key)
  {
    assert rotated == rotated[..viewed] + rotated[viewed..];
    NewestOfConcat(rotated[..viewed], rotated[viewed..], key);
    assert rotated[from..] == rotated[from..viewed] + rotated[viewed..];
    NewestOfConcat(rotated[from..viewed], rotated[viewed..], key);
  }

  function KeyOf(cfg: Config, s: State, a: Action): Key
    requires WellShaped(cfg, s) && Enabled(cfg, s, a)
    requires a.GetActive? || a.GetReadonly? || a.GetViews?
  {
    if a.GetActive? then a.key else s.workers[a.n].mode.key
  }

  /** A stage of a lookup that comes to an answer comes to what was written last, in the newest table that has the key. */
  lemma AnswerIsNewest(cfg: Config, actions: seq<Action>, a: Action)
    requires cfg.compactors > 0
    requires a.GetActive? || a.GetReadonly? || a.GetViews?
    requires var s := Run(cfg, actions); Enabled(cfg, s, a) && Step(cfg, s, a).workers[a.n].mode == Idle
    ensures var s := Run(cfg, actions);
            Step(cfg, s, a).workers[a.n].answer == Some(LookUp(Override(Filled(cfg, actions, a.n)), KeyOf(cfg, s, a)))
  {
    Reachable(cfg, actions);
    TablesHoldWhatWasWritten(cfg, actions, a.n);
    OverlayIsOverride(AllTables(cfg, Run(cfg, actions), a.n));
    hide Run, Filled, Overlay, Override;
    AnswerIsNewestIn(cfg, Run(cfg, actions), a);
  }

  lemma AnswerIsNewestIn(cfg: Config, s: State, a: Action)
    requires Inv(cfg, s) && Enabled(cfg, s, a)
    requires a.GetActive? || a.GetReadonly? || a.GetViews?
    requires Step(cfg, s, a).workers[a.n].mode == Idle
    ensures Step(cfg, s, a).workers[a.n].answer == Some(LookUp(Overlay(AllTables(cfg, s, a.n)), KeyOf(cfg, s, a)))
  {
    var n := a.n;
    var w := s.workers[n];
    var key := KeyOf(cfg, s, a);
    var rotated := Rotated(s.handed, n);
    var all := AllTables(cfg, s, n);
    assert WorkerOk(w, n, rotated, s.views[n]);
    NewestIsOverlay(all, key);
    NewestOfConcat(rotated, [w.active], key);
    assert Newest([w.active], key) == if key in w.active.entries then Some(w.active.entries[key]) else Newest([], key);
    var listed := |rotated|;
    var from := listed - |w.readonly|;
    assert rotated[from..] == w.readonly;
    assert rotated == rotated[..from] + w.readonly;
    NewestOfConcat(rotated[..from], w.readonly, key);
    if a.GetViews? {
      assert s.views[n] == rotated[..|s.views[n]|];
      NewestInViews(rotated, from, |s.views[n]|, key);
    }
  }

  /** Steps that do not belong to worker n, or only carry its lookup on. */
  predicate Interferes(a: Action, n: nat) {
    match a
    case Write(m, _) => m != n
    case GetActive(m, _) => m != n
    case Erase(m) => m != n
    case SettleCount(m) => m != n
    case HandOver(m) => m != n
    case ListReadonly(m) => m != n
    case _ => true
  }

  /** A lookup under way, or finished with the right answer. */
  ghost predicate LookupOk(cfg: Config, s: State, n: nat, key: Key, entries: Entries)
    requires WellShaped(cfg, s) && n < cfg.numbers
  {
    && Overlay(AllTables(cfg, s, n)) == entries
    && match s.workers[n].mode
       case MissedActive(k) => k == key
       case MissedReadonly(k) => k == key
       case Idle => s.workers[n].answer == Some(LookUp(entries, key))
       case _ => false
  }

  /** Whatever the other threads do, they touch no more of a worker than its removal counter. */
  lemma OthersLeaveWorker(cfg: Config, s: State, n: nat, a: Action)
    requires WellShaped(cfg, s) && n < cfg.numbers && Interferes(a, n)
    requires !((a.GetReadonly? || a.GetViews?) && a.n == n)
    ensures var w' := Step(cfg, s, a).workers[n];
            w' == s.workers[n].(removeN := w'.removeN)
    ensures Rotated(Step(cfg, s, a).handed, n) == Rotated(s.handed, n)
  {
    if Enabled(cfg, s, a) && a.HandOver? {
      RotatedSnoc(s.handed, s.workers[a.n].active, n);
    }
    hide Rotated;
  }

  lemma InterferenceKeepsLookup(cfg: Config, s: State, n: nat, key: Key, entries: Entries, a: Action)
    requires Inv(cfg, s) && n < cfg.numbers && Interferes(a, n)
    requires LookupOk(cfg, s, n, key, entries)
    ensures WellShaped(cfg, Step(cfg, s, a))
    ensures LookupOk(cfg, Step(cfg, s, a), n, key, entries)
  {
    StepKeepsShape(cfg, s, a);
    if !((a.GetReadonly? || a.GetViews?) && a.n == n) {
      hide WellShaped, WorkerOk, CompOk, LevelsCount, Step;
      OthersLeaveWorker(cfg, s, n, a);
      assert AllTables(cfg, Step(cfg, s, a), n) == AllTables(cfg, s, n);
    } else if Enabled(cfg, s, a) {
      OwnStageKeepsLookup(cfg, s, n, key, entries, a);
    }
  }

  lemma OwnStageKeepsLookup(cfg: Config, s: State, n: nat, key: Key, entries: Entries, a: Action)
    requires Inv(cfg, s) && Enabled(cfg, s, a)
    requires (a.GetReadonly? || a.GetViews?) && a.n == n
    requires LookupOk(cfg, s, n, key, entries)
    ensures WellShaped(cfg, Step(cfg, s, a))
    ensures LookupOk(cfg, Step(cfg, s, a), n, key, entries)
  {
    StepKeepsShape(cfg, s, a);
    var s' := Step(cfg, s, a);
    assert AllTables(cfg, s', n) == AllTables(cfg, s, n);
    if s'.workers[n].mode == Idle {
      hide Overlay;
      AnswerIsNewestIn(cfg, s, a);
    }
  }

  lemma {:induction false} LookupSurvives(cfg: Config, s: State, n: nat, key: Key, entries: Entries, actions: seq<Action>)
    requires Inv(cfg, s) && n < cfg.numbers
    requires LookupOk(cfg, s, n, key, entries)
    requires forall a <- actions :: Interferes(a, n)
    ensures LookupOk(cfg, RunFrom(cfg, s, actions), n, key, entries)
    decreases |actions|
  {
    if actions != [] {
      var before := actions[..|actions| - 1];
      LookupSurvives(cfg, s, n, key, entries, before);
      RunKeeps(cfg, s, before);
      InterferenceKeepsLookup(cfg, RunFrom(cfg, s, before), n, key, entries, actions[|actions| - 1]);
      hide LookupOk, Step, WorkerOk, CompOk, LevelsCount;
    }
  }

  lemma LookupIsOverlayFrom(cfg: Config, s: State, n: nat, key: Key, meanwhile: seq<Action>)
    requires Inv(cfg, s) && n < cfg.numbers
    requires Enabled(cfg, s, GetActive(n, key))
    requires forall a <- meanwhile :: Interferes(a, n)
    ensures var r := RunFrom(cfg, Step(cfg, s, GetActive(n, key)), meanwhile);
            r.workers[n].mode == Idle ==> r.workers[n].answer == Some(LookUp(Overlay(AllTables(cfg, s, n)), key))
  {
    var started := GetActive(n, key);
    StepKeeps(cfg, s, started);
    var entries := Overlay(AllTables(cfg, s, n));
    if Step(cfg, s, started).workers[n].mode == Idle {
      AnswerIsNewestIn(cfg, s, started);
    }
    hide Overlay;
    assert LookupOk(cfg, Step(cfg, s, started), n, key, entries);
    LookupSurvives(cfg, Step(cfg, s, started), n, key, entries, meanwhile);
  }

  /**
   A whole lookup: started after any run, carried on between any steps of the other threads, it ends with
   what had been written when it started, newer tables overriding older ones.
   */
  lemma LookupIsOverlay(cfg: Config, history: seq<Action>, n: nat, key: Key, meanwhile: seq<Action>)
    requires cfg.compactors > 0 && n < cfg.numbers
    requires Enabled(cfg, Run(cfg, history), GetActive(n, key))
    requires forall a <- meanwhile :: Interferes(a, n)
    ensures var s := Run(cfg, history);
            var r := RunFrom(cfg, Step(cfg, s, GetActive(n, key)), meanwhile);
            r.workers[n].mode == Idle ==>
              r.workers[n].answer == Some(LookUp(Override(Filled(cfg, history, n)), key))
  {
    Reachable(cfg, history);
    TablesHoldWhatWasWritten(cfg, history, n);
    OverlayIsOverride(AllTables(cfg, Run(cfg, history), n));
    hide Run, Filled, Override, Overlay, Step, Enabled, Inv, AllTables, EntriesOf, LookUp;
    LookupIsOverlayFrom(cfg, Run(cfg, history), n, key, meanwhile);
  }

  ghost predicate InTurn(cfg: Config, s: State) {
    && cfg.compactors > 0 && |s.owners| == |s.handed|
    && s.compIndex == |s.handed| % cfg.compactors
    && forall task: nat | task < |s.owners| :: s.owners[task] == task % cfg.compactors
  }

  lemma StepKeepsTurn(cfg: Config, s: State, a: Action)
    requires WellShaped(cfg, s) && InTurn(cfg, s)
    ensures InTurn(cfg, Step(cfg, s, a))
  {
    NextInTurn(|s.handed|, cfg.compactors);
    if a.HandOver? && Enabled(cfg, s, a) {
      var s' := Step(cfg, s, a);
      assert s'.owners == s.owners + [s.compIndex] && |s'.handed| == |s.handed| + 1;
    } else {
      var s' := Step(cfg, s, a);
      assert s'.owners == s.owners && s'.handed == s.handed && s'.compIndex == s.compIndex;
    }
  }

  lemma NextInTurn(count: nat, compactors: nat)
    requires compactors > 0
    ensures (count % compactors + 1) % compactors == (count + 1) % compactors
  {
    var q, r := count / compactors, count % compactors;
    MulNext(q, compactors);
    if r + 1 == compactors {
      Remainder(count + 1, compactors, q + 1, 0);
      Remainder(compactors, compactors, 1, 0);
    } else {
      Remainder(count + 1, compactors, q, r + 1);
      Remainder(r + 1, compactors, 0, r + 1);
    }
  }

  lemma Remainder(x: nat, n: nat, q: nat, r: nat)
    requires n > 0 && r < n && x == q * n + r
    ensures x % n == r
  {
    var q', r' := x / n, x % n;
    NotMore(q, r, q', r', n);
    NotMore(q', r', q, r, n);
  }

  lemma NotMore(q: nat, r: nat, q': nat, r': nat, n: nat)
    requires q * n + r == q' * n + r' && r' < n
    ensures q <= q'
  {
    MulNext(q', n);
    if q' + 1 <= q {
      MulMore(q' + 1, q, n);
    }
  }

  lemma MulNext(q: nat, n: nat)
    ensures (q + 1) * n == q * n + n
  {
  }

  lemma MulMore(a: nat, b: nat, n: nat)
    requires a <= b
    ensures a * n <= b * n
  {
  }

  /** Tables are handed to the compaction workers in turn. */
  lemma {:induction false} HandedInTurn(cfg: Config, actions: seq<Action>)
    requires cfg.compactors > 0
    ensures InTurn(cfg, Run(cfg, actions))
    decreases |actions|
  {
    if actions != [] {
      var front := actions[..|actions| - 1];
      HandedInTurn(cfg, front);
      StepKeepsTurn(cfg, Run(cfg, front), actions[|actions| - 1]);
      hide Step, InTurn, WellShaped;
    }
  }
}
