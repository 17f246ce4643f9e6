/**
 Which sstable a flush writes to: with one compaction worker always the one just created, with more than
 one worker not in every run. And two runs of a single worker that show what its counters do not promise.
 */
module FlushSstables {
  import opened Common
  import opened FlushProtocol
  import opened FlushInvariant
  import opened FlushTheorems
  import opened FlushCounters

  // --- The sstable is the one just pushed ---------------------------------------------------------------

  /** A flush that finds an sstable at its table's level finds the one pushed for it. */
  lemma SerialisedIntoNewSstable(cfg: Config, actions: seq<Action>, c: nat)
    requires cfg.compactors > 0
    requires Enabled(cfg, Run(cfg, actions), Serialise(c))
    requires Step(cfg, Run(cfg, actions), Serialise(c)).status == Running
    ensures var s := Run(cfg, actions);
            var t := s.handed[s.comps[c].work[0]];
            t.level == s.sstables[t.number] == Step(cfg, s, Serialise(c)).sstables[t.number] - 1
  {
    Reachable(cfg, actions);
    var s := Run(cfg, actions);
    hide Run;
    assert CompOk(cfg, s, c);
    assert s.comps[c].work[0] in Queue(s.comps[c]);
    assert Unserialised(s.handed, s.sstables, s.comps[c].work[0]);
    hide WorkerOk, Rotated, LevelsCount;
  }

  /** With one compaction worker: what is queued is the end of the history, and the rest has its sstables. */
  ghost predicate QueueIsHistory(s: State) {
    && |s.comps| == 1
    && var queue := Queue(s.comps[0]);
       var done := |s.handed| - |queue|;
       && done >= 0
       && (forall i: nat | i < |queue| :: queue[i] == done + i)
       && (forall n: nat | n < |s.sstables| :: s.sstables[n] == |Rotated(s.handed[..done], n)|)
  }

  lemma FrontLevel(cfg: Config, s: State)
    requires WellShaped(cfg, s) && LevelsCount(s.handed) && QueueIsHistory(s)
    requires Enabled(cfg, s, Serialise(0))
    ensures var t := s.handed[s.comps[0].work[0]];
            t.level == s.sstables[t.number] && s.comps[0].work[0] == |s.handed| - |Queue(s.comps[0])|
  {
    assert Queue(s.comps[0])[0] == s.comps[0].work[0];
  }

  lemma SingleHandOver(cfg: Config, s: State, n: nat)
    requires WellShaped(cfg, s) && QueueIsHistory(s) && Enabled(cfg, s, HandOver(n))
    ensures QueueIsHistory(Step(cfg, s, HandOver(n)))
  {
    var s' := Step(cfg, s, HandOver(n));
    var queue := Queue(s.comps[0]);
    var done := |s.handed| - |queue|;
    assert Queue(s'.comps[0]) == queue + [|s.handed|];
    assert s'.handed[..done] == s.handed[..done];
    hide Rotated;
  }

  lemma SingleSerialise(cfg: Config, s: State)
    requires WellShaped(cfg, s) && LevelsCount(s.handed) && QueueIsHistory(s)
    requires Enabled(cfg, s, Serialise(0))
    ensures Step(cfg, s, Serialise(0)).status == Running
    ensures QueueIsHistory(Step(cfg, s, Serialise(0)))
  {
    FrontLevel(cfg, s);
    var s' := Step(cfg, s, Serialise(0));
    var queue := Queue(s.comps[0]);
    var done := |s.handed| - |queue|;
    assert Queue(s'.comps[0]) == queue[1..];
    assert s.handed[..done + 1] == s.handed[..done] + [s.handed[done]];
    forall n: nat | n < |s.sstables|
      ensures s'.sstables[n] == |Rotated(s.handed[..done + 1], n)|
    {
      RotatedSnoc(s.handed[..done], s.handed[done], n);
    }
    hide Rotated, LevelsCount;
  }

  /** Steps that leave the history, the queues and the sstables alone. */
  lemma SingleOtherStep(cfg: Config, s: State, a: Action)
    requires WellShaped(cfg, s) && QueueIsHistory(s) && Enabled(cfg, s, a)
    requires !a.HandOver? && !a.Serialise? && !a.TakeQueue?
    ensures QueueIsHistory(Step(cfg, s, a)) && Step(cfg, s, a).status != BadSstableIndex
  {
    OtherStepLeavesQueue(cfg, s, a);
    hide Rotated, Step, Enabled;
  }

  lemma OtherStepLeavesQueue(cfg: Config, s: State, a: Action)
    requires WellShaped(cfg, s) && Enabled(cfg, s, a) && |s.comps| == 1
    requires !a.HandOver? && !a.Serialise? && !a.TakeQueue?
    ensures var s' := Step(cfg, s, a);
            && s'.handed == s.handed && s'.sstables == s.sstables
            && |s'.comps| == 1 && Queue(s'.comps[0]) == Queue(s.comps[0])
            && s'.status != BadSstableIndex
  {
    hide Newest;
  }

  lemma SingleStep(cfg: Config, s: State, a: Action)
    requires cfg.compactors == 1 && WellShaped(cfg, s) && LevelsCount(s.handed) && QueueIsHistory(s)
    requires s.status != BadSstableIndex
    ensures QueueIsHistory(Step(cfg, s, a)) && Step(cfg, s, a).status != BadSstableIndex
  {
    if Enabled(cfg, s, a) {
      if a.HandOver? {
        SingleHandOver(cfg, s, a.n);
      } else if a.Serialise? {
        SingleSerialise(cfg, s);
      } else if a.TakeQueue? {
        TakenQueueInOrder(s.comps[0]);
      } else {
        hide QueueIsHistory, Step;
        SingleOtherStep(cfg, s, a);
      }
    }
  }

  lemma {:induction false} SingleRun(cfg: Config, actions: seq<Action>)
    requires cfg.compactors == 1
    ensures QueueIsHistory(Run(cfg, actions)) && Run(cfg, actions).status != BadSstableIndex
    decreases |actions|
  {
    if actions == [] {
      assert Initial(cfg).handed[..0] == [];
    } else {
      var before := actions[..|actions| - 1];
      SingleRun(cfg, before);
      Reachable(cfg, before);
      SingleStep(cfg, Run(cfg, before), actions[|actions| - 1]);
      hide QueueIsHistory, Step;
    }
  }

  // --- Runs that go wrong --------------------------------------------------------------------------------

  lemma RunSnoc(cfg: Config, actions: seq<Action>, a: Action)
    requires cfg.compactors > 0
    ensures Run(cfg, actions + [a]) == Step(cfg, Run(cfg, actions), a)
  {
    assert (actions + [a])[..|actions|] == actions;
  }

  /** Two tables of number 0 are rotated, and the second worker serialises before the first. */
  const BOTH_ROTATED: seq<Action> := [] + [HandOver(0)] + [ListReadonly(0)] + [HandOver(0)]
  const OVERTAKING: seq<Action> := BOTH_ROTATED + [TakeQueue(1)] + [Serialise(1)]

  /** The compaction workers have had their first tables, and have not begun. */
  predicate Untouched(s: State, first: nat) {
    && s.status == Running
    && |s.sstables| > 0 && s.sstables[0] == 0
    && forall c: nat | first <= c < |s.comps| :: s.comps[c] == CompWorker([], [], {}, Polling)
  }

  lemma FirstHandedOver(cfg: Config)
    requires cfg.compactors >= 2 && cfg.numbers > 0
    ensures var s := Run(cfg, [] + [HandOver(0)]);
            && Untouched(s, 1)
            && |s.handed| == s.compIndex == 1
            && s.workers[0] == InitialWorker(0).(mode := HandedOver)
  {
    RunSnoc(cfg, [], HandOver(0));
    assert Run(cfg, []) == Initial(cfg);
    hide Run;
    assert Enabled(cfg, Initial(cfg), HandOver(0));
  }

  lemma FirstRotated(cfg: Config)
    requires cfg.compactors >= 2 && cfg.numbers > 0
    ensures var s := Run(cfg, [] + [HandOver(0)] + [ListReadonly(0)]);
            && Untouched(s, 1)
            && |s.handed| == s.compIndex == 1
            && s.workers[0].mode == Idle && s.workers[0].active == Table(0, 1, map[])
  {
    FirstHandedOver(cfg);
    RunSnoc(cfg, [] + [HandOver(0)], ListReadonly(0));
    hide Run;
  }

  lemma SecondRotated(cfg: Config)
    requires cfg.compactors >= 2 && cfg.numbers > 0
    ensures var s := Run(cfg, BOTH_ROTATED);
            && s.status == Running && |s.sstables| > 0 && s.sstables[0] == 0
            && |s.handed| == 2 && s.handed[1] == Table(0, 1, map[])
            && s.comps[1] == CompWorker([1], [], {}, Polling)
  {
    FirstRotated(cfg);
    RunSnoc(cfg, [] + [HandOver(0)] + [ListReadonly(0)], HandOver(0));
    hide Run;
  }

  lemma OvertakingHasNoSstable(cfg: Config)
    requires cfg.compactors >= 2 && cfg.numbers > 0
    ensures Run(cfg, OVERTAKING).status == BadSstableIndex
  {
    SecondRotated(cfg);
    RunSnoc(cfg, BOTH_ROTATED, TakeQueue(1));
    RunSnoc(cfg, BOTH_ROTATED + [TakeQueue(1)], Serialise(1));
    hide Run, BOTH_ROTATED;
  }

  /** The sstable index is safe in all runs exactly with one compaction worker. */
  lemma SstableIndexSafeIffOneCompactor(cfg: Config)
    requires cfg.compactors > 0 && cfg.numbers > 0
    ensures (forall actions: seq<Action> :: Run(cfg, actions).status != BadSstableIndex) <==> cfg.compactors == 1
  {
    if cfg.compactors == 1 {
      forall actions: seq<Action>
        ensures Run(cfg, actions).status != BadSstableIndex
      {
        SingleRun(cfg, actions);
      }
    } else {
      OvertakingHasNoSstable(cfg);
    }
  }

  // --- One worker, one number --------------------------------------------------------------------------------

  const SINGLE := Config(1, 1)

  function Empty(level: nat): Table {
    Table(0, level, map[])
  }

  /** A running state of one task worker and one compaction worker, but for the history. */
  predicate At(s: State, w: Worker, k: CompWorker, views: seq<Table>, sstables: nat) {
    && WellShaped(SINGLE, s) && s.status == Running
    && s.workers[0] == w && s.comps[0] == k && s.views[0] == views && s.sstables[0] == sstables
  }

  function Resting(readonly: seq<Table>, removeN: nat, preRemoveN: nat): Worker {
    Worker(Empty(|readonly| + preRemoveN), readonly, removeN, preRemoveN, Idle, None)
  }

  const ROTATED_TWICE: seq<Action> := [] + [HandOver(0)] + [ListReadonly(0)] + [HandOver(0)] + [ListReadonly(0)]
  const WRITTEN_TWICE: seq<Action> := ROTATED_TWICE + [TakeQueue(0)] + [Serialise(0)] + [Serialise(0)]

  predicate TwoHanded(s: State) {
    s.handed == [Empty(0), Empty(1)]
  }

  lemma RotatedTwice()
    ensures var s := Run(SINGLE, ROTATED_TWICE);
            && At(s, Resting([Empty(0), Empty(1)], 0, 0), CompWorker([0, 1], [], {}, Polling), [], 0)
            && TwoHanded(s)
  {
    RunSnoc(SINGLE, [], HandOver(0));
    RunSnoc(SINGLE, [] + [HandOver(0)], ListReadonly(0));
    RunSnoc(SINGLE, [] + [HandOver(0)] + [ListReadonly(0)], HandOver(0));
    RunSnoc(SINGLE, [] + [HandOver(0)] + [ListReadonly(0)] + [HandOver(0)], ListReadonly(0));
    var s0 := Initial(SINGLE);
    assert Run(SINGLE, []) == s0;
    hide Run;
    assert At(s0, Resting([], 0, 0), CompWorker([], [], {}, Polling), [], 0);
    var s1 := Step(SINGLE, s0, HandOver(0));
    assert At(s1, Resting([], 0, 0).(mode := HandedOver), CompWorker([0], [], {}, Polling), [], 0);
    var s2 := Step(SINGLE, s1, ListReadonly(0));
    assert At(s2, Resting([Empty(0)], 0, 0), CompWorker([0], [], {}, Polling), [], 0);
    assert s2.handed == [Empty(0)];
    var s3 := Step(SINGLE, s2, HandOver(0));
    assert At(s3, Resting([Empty(0)], 0, 0).(mode := HandedOver), CompWorker([0, 1], [], {}, Polling), [], 0);
  }

  lemma WrittenTwice()
    ensures var s := Run(SINGLE, WRITTEN_TWICE);
            && At(s, Resting([Empty(0), Empty(1)], 0, 0), CompWorker([], [], {0, 1}, Polling), [], 2)
            && TwoHanded(s)
  {
    RotatedTwice();
    RunSnoc(SINGLE, ROTATED_TWICE, TakeQueue(0));
    RunSnoc(SINGLE, ROTATED_TWICE + [TakeQueue(0)], Serialise(0));
    RunSnoc(SINGLE, ROTATED_TWICE + [TakeQueue(0)] + [Serialise(0)], Serialise(0));
    hide Run, ROTATED_TWICE;
    var s0 := Run(SINGLE, ROTATED_TWICE);
    var s1 := Step(SINGLE, s0, TakeQueue(0));
    assert At(s1, s0.workers[0], CompWorker([], [0, 1], {}, Polling), [], 0);
    var s2 := Step(SINGLE, s1, Serialise(0));
    assert At(s2, s0.workers[0], CompWorker([], [1], {0}, Polling), [], 1);
  }

  /** Writes complete in any order; the second one completing first fails the level assertion. */
  lemma LevelAssertCanFail()
    ensures Run(SINGLE, WRITTEN_TWICE + [Complete(0, 1)]).status == LevelAssertFailed
  {
    WrittenTwice();
    RunSnoc(SINGLE, WRITTEN_TWICE, Complete(0, 1));
    hide Run, WRITTEN_TWICE;
  }

  const FIRST_COUNTED: seq<Action> := WRITTEN_TWICE + [Complete(0, 0)] + [PushView(0)] + [CountRemoval(0)]
  const COUNTED_WHILE_ERASING: seq<Action> :=
    FIRST_COUNTED + [Erase(0)] + [Complete(0, 1)] + [PushView(0)] + [CountRemoval(0)]

  lemma FirstCounted()
    ensures var s := Run(SINGLE, FIRST_COUNTED);
            && At(s, Resting([Empty(0), Empty(1)], 1, 0), CompWorker([], [], {1}, Polling), [Empty(0)], 2)
            && TwoHanded(s)
  {
    WrittenTwice();
    RunSnoc(SINGLE, WRITTEN_TWICE, Complete(0, 0));
    RunSnoc(SINGLE, WRITTEN_TWICE + [Complete(0, 0)], PushView(0));
    RunSnoc(SINGLE, WRITTEN_TWICE + [Complete(0, 0)] + [PushView(0)], CountRemoval(0));
    hide Run, WRITTEN_TWICE;
    var s0 := Run(SINGLE, WRITTEN_TWICE);
    var s1 := Step(SINGLE, s0, Complete(0, 0));
    assert At(s1, s0.workers[0], CompWorker([], [], {1}, Viewing(0, 0)), [], 2);
    var s2 := Step(SINGLE, s1, PushView(0));
    assert At(s2, s0.workers[0], CompWorker([], [], {1}, Counting(0)), [Empty(0)], 2);
  }

  lemma CountedWhileErasing()
    ensures var s := Run(SINGLE, COUNTED_WHILE_ERASING);
            && At(s, Worker(Empty(2), [Empty(1)], 2, 0, Erasing, None), CompWorker([], [], {}, Polling),
                  [Empty(0), Empty(1)], 2)
            && TwoHanded(s)
  {
    FirstCounted();
    RunSnoc(SINGLE, FIRST_COUNTED, Erase(0));
    RunSnoc(SINGLE, FIRST_COUNTED + [Erase(0)], Complete(0, 1));
    RunSnoc(SINGLE, FIRST_COUNTED + [Erase(0)] + [Complete(0, 1)], PushView(0));
    RunSnoc(SINGLE, FIRST_COUNTED + [Erase(0)] + [Complete(0, 1)] + [PushView(0)], CountRemoval(0));
    hide Run, FIRST_COUNTED;
    var s0 := Run(SINGLE, FIRST_COUNTED);
    var s1 := Step(SINGLE, s0, Erase(0));
    var w := Worker(Empty(2), [Empty(1)], 1, 0, Erasing, None);
    assert At(s1, w, CompWorker([], [], {1}, Polling), [Empty(0)], 2);
    var s2 := Step(SINGLE, s1, Complete(0, 1));
    assert At(s2, w, CompWorker([], [], {}, Viewing(1, 1)), [Empty(0)], 2);
    var s3 := Step(SINGLE, s2, PushView(0));
    assert At(s3, w, CompWorker([], [], {}, Counting(1)), [Empty(0), Empty(1)], 2);
  }

  /** A run in which the read-only list keeps a table that the worker's count says is gone. */
  lemma ReadonlyCanLeak()
    ensures var s := Run(SINGLE, COUNTED_WHILE_ERASING + [SettleCount(0)]);
            && s.status == Running
            && s.workers[0].mode == Idle
            && |s.workers[0].readonly| == 1
            && |Rotated(s.handed, 0)| - s.workers[0].preRemoveN == 0
            && Slipped(SINGLE, COUNTED_WHILE_ERASING + [SettleCount(0)], 0) == 1
  {
    CountedWhileErasing();
    RunSnoc(SINGLE, COUNTED_WHILE_ERASING, SettleCount(0));
    LeakedIsSlipped(SINGLE, COUNTED_WHILE_ERASING + [SettleCount(0)], 0);
    hide Run, COUNTED_WHILE_ERASING, Slipped;
    RotatedSnoc([Empty(0)], Empty(1), 0);
    RotatedSnoc([], Empty(0), 0);
    assert [] + [Empty(0)] == [Empty(0)];
    assert [Empty(0)] + [Empty(1)] == [Empty(0), Empty(1)];
  }
}
