/**
 The flush counters over every run: their order, what they say of the read-only list, when the level
 assertion and the sstable index hold, and the runs in which they fail.
 */
module FlushCounters {
  import opened Common
  import opened FlushProtocol
  import opened FlushInvariant
  import opened FlushTheorems

  // --- Order of the counters -------------------------------------------------------------------------

  /** Counted removals never outrun views, nor views rotations; and the view list is the oldest part of the rotations. */
  lemma CountersInOrder(cfg: Config, actions: seq<Action>, n: nat)
    requires cfg.compactors > 0 && n < cfg.numbers
    ensures var s := Run(cfg, actions);
            && s.workers[n].preRemoveN <= s.workers[n].removeN <= |s.views[n]| <= |Rotated(s.handed, n)|
            && s.views[n] == Rotated(s.handed, n)[..|s.views[n]|]
    ensures Run(cfg, actions).status != EraseOverrun
  {
    Reachable(cfg, actions);
    NoOverrun(cfg, actions);
    var s := Run(cfg, actions);
    assert WorkerOk(s.workers[n], n, Rotated(s.handed, n), s.views[n]);
    hide Run;
  }

  lemma {:induction false} NoOverrun(cfg: Config, actions: seq<Action>)
    requires cfg.compactors > 0
    ensures RunFrom(cfg, Initial(cfg), actions).status != EraseOverrun
    decreases |actions|
  {
    if actions != [] {
      var before, a := actions[..|actions| - 1], actions[|actions| - 1];
      NoOverrun(cfg, before);
      Reachable(cfg, before);
      var s := Run(cfg, before);
      if a.Erase? && Enabled(cfg, s, a) {
        EraseNeverOverruns(s.workers[a.n], a.n, Rotated(s.handed, a.n), s.views[a.n]);
      }
      hide Inv;
    }
  }

  // --- Levels ----------------------------------------------------------------------------------------

  lemma {:induction false} RotatedLevels(handed: seq<Table>, n: nat, i: nat)
    requires LevelsCount(handed) && i < |Rotated(handed, n)|
    ensures Rotated(handed, n)[i].level == i && Rotated(handed, n)[i].number == n
    decreases |handed|
  {
    var last := |handed| - 1;
    assert handed == handed[..last] + [handed[last]];
    RotatedSnoc(handed[..last], handed[last], n);
    if i < |Rotated(handed[..last], n)| {
      LevelsCountPrefix(handed);
      RotatedLevels(handed[..last], n, i);
    }
  }

  lemma LevelsCountPrefix(handed: seq<Table>)
    requires LevelsCount(handed) && handed != []
    ensures LevelsCount(handed[..|handed| - 1])
  {
    var shorter := handed[..|handed| - 1];
    forall i: nat | i < |shorter|
      ensures shorter[i].level == |Rotated(shorter[..i], shorter[i].number)|
    {
      assert shorter[..i] == handed[..i] && shorter[i] == handed[i];
    }
  }

  /** A view stands in its view list at the level stored in its file. */
  lemma ViewsAtTheirLevel(cfg: Config, actions: seq<Action>, n: nat, i: nat)
    requires cfg.compactors > 0 && n < cfg.numbers
    requires i < |Run(cfg, actions).views[n]|
    ensures Run(cfg, actions).views[n][i].level == i && Run(cfg, actions).views[n][i].number == n
  {
    Reachable(cfg, actions);
    CountersInOrder(cfg, actions, n);
    hide Run;
    var s := Run(cfg, actions);
    RotatedLevels(s.handed, n, i);
  }

  /** Each table of the rotation order was handed over, before any table of its number with a higher level. */
  lemma {:induction false} RotatedSource(handed: seq<Table>, n: nat, i: nat) returns (task: nat)
    requires i < |Rotated(handed, n)|
    ensures task < |handed| && handed[task] == Rotated(handed, n)[i]
    decreases |handed|
  {
    var last := |handed| - 1;
    if i < |Rotated(handed[..last], n)| {
      task := RotatedSource(handed[..last], n, i);
    } else {
      task := last;
    }
  }

  /** A table whose level is the size of the view list has all older tables of its number in that list. */
  lemma OlderAreViewed(handed: seq<Table>, views: seq<Table>, task: nat, earlier: nat)
    requires LevelsCount(handed) && earlier < task < |handed| && handed[earlier].number == handed[task].number
    requires views <= Rotated(handed, handed[task].number) && handed[task].level == |views|
    ensures handed[earlier] in views
  {
    RotatedAtLevel(handed, earlier);
    EarlierIsLower(handed, earlier, task);
    hide Rotated, LevelsCount;
    assert views[handed[earlier].level] == handed[earlier];
  }

  /** A table of a higher level has an older one that is not. */
  lemma SomeOlderIsNotViewed(handed: seq<Table>, views: seq<Table>, task: nat) returns (earlier: nat)
    requires LevelsCount(handed) && task < |handed|
    requires views <= Rotated(handed, handed[task].number) && handed[task].level > |views|
    ensures earlier < task && handed[earlier].number == handed[task].number && handed[earlier] !in views
  {
    var n := handed[task].number;
    var before := handed[..task];
    var missing := |views|;
    assert handed[task].level == |Rotated(before, n)|;
    earlier := RotatedSource(before, n, missing);
    RotatedPrefix(handed, task, n);
    RotatedLevels(handed, n, missing);
    assert handed[earlier] == before[earlier] == Rotated(handed, n)[missing];
    if handed[earlier] in views {
      var i: nat :| i < |views| && views[i] == handed[earlier];
      RotatedLevels(handed, n, i);
      assert false;
    }
  }

  /**
   The level assertion lets a completed write pass exactly when every older table of its number is already
   in the view list: it is what forces completions into rotation order.
   */
  lemma LevelAssertIffInOrder(cfg: Config, actions: seq<Action>, c: nat, task: nat)
    requires cfg.compactors > 0
    requires Enabled(cfg, Run(cfg, actions), Complete(c, task))
    ensures var s := Run(cfg, actions);
            var n := s.handed[task].number;
            Step(cfg, s, Complete(c, task)).status == Running <==>
            forall earlier: nat | earlier < task && s.handed[earlier].number == n :: s.handed[earlier] in s.views[n]
  {
    Reachable(cfg, actions);
    CompletableTask(cfg, Run(cfg, actions), c, task);
    var s := Run(cfg, actions);
    var n := s.handed[task].number;
    hide Run, Inv, Rotated, LevelsCount;
    if s.handed[task].level == |s.views[n]| {
      forall earlier: nat | earlier < task && s.handed[earlier].number == n
        ensures s.handed[earlier] in s.views[n]
      {
        OlderAreViewed(s.handed, s.views[n], task, earlier);
      }
    } else {
      var earlier := SomeOlderIsNotViewed(s.handed, s.views[n], task);
    }
  }

  lemma CompletableTask(cfg: Config, s: State, c: nat, task: nat)
    requires Inv(cfg, s) && Enabled(cfg, s, Complete(c, task))
    ensures var n := s.handed[task].number;
            && LevelsCount(s.handed)
            && s.views[n] <= Rotated(s.handed, n)
            && s.handed[task].level >= |s.views[n]|
  {
    assert CompOk(cfg, s, c);
    assert task in Tasks(s.comps[c]);
    assert Unviewed(s.handed, s.owners, s.views, c, task);
    var n := s.handed[task].number;
    assert WorkerOk(s.workers[n], n, Rotated(s.handed, n), s.views[n]);
    hide CompOk, OrderOk, Rotated, LevelsCount;
  }

  // --- The read-only list ------------------------------------------------------------------------------

  /** A removal is counted while the worker is between erasing its flushed tables and taking over the counter. */
  predicate Slips(cfg: Config, s: State, a: Action, n: nat)
    requires WellShaped(cfg, s) && n < cfg.numbers
  {
    a.CountRemoval? && Enabled(cfg, s, a) && s.handed[s.comps[a.c].mode.task].number == n && s.workers[n].mode == Erasing
  }

  /**
   How often that happens in a run. The worker takes such a removal for done without having erased the
   table, which then stays in its read-only list.
   */
  function Slipped(cfg: Config, actions: seq<Action>, n: nat): nat
    requires cfg.compactors > 0 && n < cfg.numbers
    decreases |actions|
  {
    if actions == [] then 0
    else
      var before, a := actions[..|actions| - 1], actions[|actions| - 1];
      Slipped(cfg, before, n) + if Slips(cfg, Run(cfg, before), a, n) then 1 else 0
  }

  /** The tables in the read-only list that the worker's own count says are gone. */
  function Leaked(s: State, n: nat): int
    requires n < |s.workers|
  {
    var w := s.workers[n];
    var listed := |Rotated(s.handed, n)| - if w.mode == HandedOver then 1 else 0;
    |w.readonly| - (listed - if w.mode == Erasing then w.removeN else w.preRemoveN)
  }

  /** The leaked tables are exactly the removals that slipped through. */
  lemma {:induction false} LeakedIsSlipped(cfg: Config, actions: seq<Action>, n: nat)
    requires cfg.compactors > 0 && n < cfg.numbers
    ensures Leaked(Run(cfg, actions), n) == Slipped(cfg, actions, n)
    decreases |actions|
  {
    if actions != [] {
      var before, a := actions[..|actions| - 1], actions[|actions| - 1];
      LeakedIsSlipped(cfg, before, n);
      LeakStep(cfg, Run(cfg, before), n, a);
      hide Leaked, Slips, Rotated, Step;
    }
  }

  lemma LeakStep(cfg: Config, s: State, n: nat, a: Action)
    requires WellShaped(cfg, s) && n < cfg.numbers
    ensures WellShaped(cfg, Step(cfg, s, a))
    ensures Leaked(Step(cfg, s, a), n) == Leaked(s, n) + if Slips(cfg, s, a, n) then 1 else 0
  {
    StepKeepsShape(cfg, s, a);
    if Enabled(cfg, s, a) {
      if a.HandOver? {
        RotatedSnoc(s.handed, s.workers[a.n].active, n);
        hide Rotated;
      } else if a.Write? || a.GetActive? || a.GetReadonly? || a.GetViews? || a.Erase? || a.SettleCount? || a.ListReadonly? {
        OwnStepLeak(cfg, s, n, a);
      } else {
        hide Rotated;
      }
    }
  }

  lemma OwnStepLeak(cfg: Config, s: State, n: nat, a: Action)
    requires WellShaped(cfg, s) && n < cfg.numbers && Enabled(cfg, s, a)
    requires a.Write? || a.GetActive? || a.GetReadonly? || a.GetViews? || a.Erase? || a.SettleCount? || a.ListReadonly?
    ensures Leaked(Step(cfg, s, a), n) == Leaked(s, n)
  {
    hide Rotated, Newest;
  }

  /** The read-only list has one table for each rotation not yet taken as removed exactly if no count slipped. */
  lemma ReadonlyLengthExact(cfg: Config, actions: seq<Action>, n: nat)
    requires cfg.compactors > 0 && n < cfg.numbers
    requires Run(cfg, actions).workers[n].mode == Idle
    ensures var s := Run(cfg, actions);
            |s.workers[n].readonly| == |Rotated(s.handed, n)| - s.workers[n].preRemoveN <==> Slipped(cfg, actions, n) == 0
  {
    LeakedIsSlipped(cfg, actions, n);
    hide Run, Rotated, Slipped;
  }
}
