/** One flush from beginning to end: a write goes through every stage, and the lookup after it finds it in a view. */
module FlushScenario {
  import opened Common
  import opened FlushProtocol
  import opened FlushInvariant
  import opened FlushTheorems

  const ONE := Config(1, 1)

  function Solo(w: Worker, k: CompWorker, views: seq<Table>, sstables: nat, handed: seq<Table>): State {
    State([w], [k], 0, [views], [sstables], handed, if handed == [] then [] else [0], Running)
  }

  function Rest(): CompWorker {
    CompWorker([], [], {}, Polling)
  }

  function Full(e: Entries): Table {
    Table(0, 0, e)
  }

  /** The worker once it has started its second table. */
  function Later(readonly: seq<Table>, removeN: nat, preRemoveN: nat, mode: Mode, answer: Option<Option<Entry>>): Worker {
    Worker(Table(0, 1, map[]), readonly, removeN, preRemoveN, mode, answer)
  }

  /** The steps of the flush and of the lookup after it. */
  function StepAt(e: Entries, key: Key, i: nat): Action
    requires i < 13
  {
    match i
    case 0 => Write(0, e)
    case 1 => HandOver(0)
    case 2 => ListReadonly(0)
    case 3 => TakeQueue(0)
    case 4 => Serialise(0)
    case 5 => Complete(0, 0)
    case 6 => PushView(0)
    case 7 => CountRemoval(0)
    case 8 => Erase(0)
    case 9 => SettleCount(0)
    case 10 => GetActive(0, key)
    case 11 => GetReadonly(0)
    case _ => GetViews(0)
  }

  /** The state before each of them, and the one after the last. */
  function StateAt(e: Entries, key: Key, i: nat): State
    requires i <= 13
  {
    match i
    case 0 => Solo(Worker(Table(0, 0, map[]), [], 0, 0, Idle, None), Rest(), [], 0, [])
    case 1 => Solo(Worker(Table(0, 0, e), [], 0, 0, Idle, None), Rest(), [], 0, [])
    case 2 => Solo(Worker(Table(0, 0, e), [], 0, 0, HandedOver, None), CompWorker([0], [], {}, Polling), [], 0, [Full(e)])
    case 3 => Solo(Later([Full(e)], 0, 0, Idle, None), CompWorker([0], [], {}, Polling), [], 0, [Full(e)])
    case 4 => Solo(Later([Full(e)], 0, 0, Idle, None), CompWorker([], [0], {}, Polling), [], 0, [Full(e)])
    case 5 => Solo(Later([Full(e)], 0, 0, Idle, None), CompWorker([], [], {0}, Polling), [], 1, [Full(e)])
    case 6 => Solo(Later([Full(e)], 0, 0, Idle, None), CompWorker([], [], {}, Viewing(0, 0)), [], 1, [Full(e)])
    case 7 => Solo(Later([Full(e)], 0, 0, Idle, None), CompWorker([], [], {}, Counting(0)), [Full(e)], 1, [Full(e)])
    case 8 => Solo(Later([Full(e)], 1, 0, Idle, None), Rest(), [Full(e)], 1, [Full(e)])
    case 9 => Solo(Later([], 1, 0, Erasing, None), Rest(), [Full(e)], 1, [Full(e)])
    case 10 => Solo(Later([], 1, 1, Idle, None), Rest(), [Full(e)], 1, [Full(e)])
    case 11 => Solo(Later([], 1, 1, MissedActive(key), None), Rest(), [Full(e)], 1, [Full(e)])
    case 12 => Solo(Later([], 1, 1, MissedReadonly(key), None), Rest(), [Full(e)], 1, [Full(e)])
    case _ => Solo(Later([], 1, 1, Idle, Some(LookUp(e, key))), Rest(), [Full(e)], 1, [Full(e)])
  }

  function Steps(e: Entries, key: Key, count: nat): seq<Action>
    requires count <= 13
  {
    if count == 0 then [] else Steps(e, key, count - 1) + [StepAt(e, key, count - 1)]
  }

  lemma Step0(e: Entries, key: Key)
    ensures WellShaped(ONE, StateAt(e, key, 0)) && Step(ONE, StateAt(e, key, 0), StepAt(e, key, 0)) == StateAt(e, key, 1)
  {
    var s, t := Step(ONE, StateAt(e, key, 0), StepAt(e, key, 0)), StateAt(e, key, 1);
    assert s.workers == t.workers && s.comps == t.comps && s.views == t.views && s.sstables == t.sstables;
    assert s.handed == t.handed && s.owners == t.owners;
  }

  lemma Step1(e: Entries, key: Key)
    ensures WellShaped(ONE, StateAt(e, key, 1)) && Step(ONE, StateAt(e, key, 1), StepAt(e, key, 1)) == StateAt(e, key, 2)
  {
    var s, t := Step(ONE, StateAt(e, key, 1), StepAt(e, key, 1)), StateAt(e, key, 2);
    assert s.comps[0].bg == t.comps[0].bg;
    assert s.workers == t.workers && s.comps == t.comps && s.views == t.views && s.sstables == t.sstables;
    assert s.handed == t.handed && s.owners == t.owners;
  }

  lemma Step2(e: Entries, key: Key)
    ensures WellShaped(ONE, StateAt(e, key, 2)) && Step(ONE, StateAt(e, key, 2), StepAt(e, key, 2)) == StateAt(e, key, 3)
  {
    var s, t := Step(ONE, StateAt(e, key, 2), StepAt(e, key, 2)), StateAt(e, key, 3);
    assert s.workers[0].readonly == t.workers[0].readonly;
    assert s.workers == t.workers && s.comps == t.comps && s.views == t.views && s.sstables == t.sstables;
    assert s.handed == t.handed && s.owners == t.owners;
  }

  lemma Step3(e: Entries, key: Key)
    ensures WellShaped(ONE, StateAt(e, key, 3)) && Step(ONE, StateAt(e, key, 3), StepAt(e, key, 3)) == StateAt(e, key, 4)
  {
    var s, t := Step(ONE, StateAt(e, key, 3), StepAt(e, key, 3)), StateAt(e, key, 4);
    assert s.workers == t.workers && s.comps == t.comps && s.views == t.views && s.sstables == t.sstables;
    assert s.handed == t.handed && s.owners == t.owners;
  }

  lemma Step4(e: Entries, key: Key)
    ensures WellShaped(ONE, StateAt(e, key, 4)) && Step(ONE, StateAt(e, key, 4), StepAt(e, key, 4)) == StateAt(e, key, 5)
  {
    assert [0][1..] == [];
    assert {} + {0} == {0};
    var s, t := Step(ONE, StateAt(e, key, 4), StepAt(e, key, 4)), StateAt(e, key, 5);
    assert s.workers == t.workers && s.comps == t.comps && s.views == t.views && s.sstables == t.sstables;
    assert s.handed == t.handed && s.owners == t.owners;
  }

  lemma Step5(e: Entries, key: Key)
    ensures WellShaped(ONE, StateAt(e, key, 5)) && Step(ONE, StateAt(e, key, 5), StepAt(e, key, 5)) == StateAt(e, key, 6)
  {
    assert {0} - {0} == {};
    var s, t := Step(ONE, StateAt(e, key, 5), StepAt(e, key, 5)), StateAt(e, key, 6);
    assert s.workers == t.workers && s.comps == t.comps && s.views == t.views && s.sstables == t.sstables;
    assert s.handed == t.handed && s.owners == t.owners;
  }

  lemma Step6(e: Entries, key: Key)
    ensures WellShaped(ONE, StateAt(e, key, 6)) && Step(ONE, StateAt(e, key, 6), StepAt(e, key, 6)) == StateAt(e, key, 7)
  {
    var s, t := Step(ONE, StateAt(e, key, 6), StepAt(e, key, 6)), StateAt(e, key, 7);
    assert s.views[0] == t.views[0];
    assert s.workers == t.workers && s.comps == t.comps && s.views == t.views && s.sstables == t.sstables;
    assert s.handed == t.handed && s.owners == t.owners;
  }

  lemma Step7(e: Entries, key: Key)
    ensures WellShaped(ONE, StateAt(e, key, 7)) && Step(ONE, StateAt(e, key, 7), StepAt(e, key, 7)) == StateAt(e, key, 8)
  {
    var s, t := Step(ONE, StateAt(e, key, 7), StepAt(e, key, 7)), StateAt(e, key, 8);
    assert s.workers == t.workers && s.comps == t.comps && s.views == t.views && s.sstables == t.sstables;
    assert s.handed == t.handed && s.owners == t.owners;
  }

  lemma Step8(e: Entries, key: Key)
    ensures WellShaped(ONE, StateAt(e, key, 8)) && Step(ONE, StateAt(e, key, 8), StepAt(e, key, 8)) == StateAt(e, key, 9)
  {
    assert [Full(e)][1..] == [];
    var s, t := Step(ONE, StateAt(e, key, 8), StepAt(e, key, 8)), StateAt(e, key, 9);
    assert s.workers == t.workers && s.comps == t.comps && s.views == t.views && s.sstables == t.sstables;
    assert s.handed == t.handed && s.owners == t.owners;
  }

  lemma Step9(e: Entries, key: Key)
    ensures WellShaped(ONE, StateAt(e, key, 9)) && Step(ONE, StateAt(e, key, 9), StepAt(e, key, 9)) == StateAt(e, key, 10)
  {
    var s, t := Step(ONE, StateAt(e, key, 9), StepAt(e, key, 9)), StateAt(e, key, 10);
    assert s.workers == t.workers && s.comps == t.comps && s.views == t.views && s.sstables == t.sstables;
    assert s.handed == t.handed && s.owners == t.owners;
  }

  lemma Step10(e: Entries, key: Key)
    ensures WellShaped(ONE, StateAt(e, key, 10)) && Step(ONE, StateAt(e, key, 10), StepAt(e, key, 10)) == StateAt(e, key, 11)
  {
    var s, t := Step(ONE, StateAt(e, key, 10), StepAt(e, key, 10)), StateAt(e, key, 11);
    assert s.workers == t.workers && s.comps == t.comps && s.views == t.views && s.sstables == t.sstables;
    assert s.handed == t.handed && s.owners == t.owners;
  }

  lemma Step11(e: Entries, key: Key)
    ensures WellShaped(ONE, StateAt(e, key, 11)) && Step(ONE, StateAt(e, key, 11), StepAt(e, key, 11)) == StateAt(e, key, 12)
  {
    assert Newest([], key) == None;
    var s, t := Step(ONE, StateAt(e, key, 11), StepAt(e, key, 11)), StateAt(e, key, 12);
    assert s.workers == t.workers && s.comps == t.comps && s.views == t.views && s.sstables == t.sstables;
    assert s.handed == t.handed && s.owners == t.owners;
  }

  lemma Step12(e: Entries, key: Key)
    ensures WellShaped(ONE, StateAt(e, key, 12)) && Step(ONE, StateAt(e, key, 12), StepAt(e, key, 12)) == StateAt(e, key, 13)
  {
    assert [Full(e)][..0] == [];
    assert Newest([Full(e)], key) == LookUp(e, key);
    var s, t := Step(ONE, StateAt(e, key, 12), StepAt(e, key, 12)), StateAt(e, key, 13);
    assert s.workers == t.workers && s.comps == t.comps && s.views == t.views && s.sstables == t.sstables;
    assert s.handed == t.handed && s.owners == t.owners;
  }

  lemma StepsFit(e: Entries, key: Key, i: nat)
    requires i < 13
    ensures WellShaped(ONE, StateAt(e, key, i)) && Step(ONE, StateAt(e, key, i), StepAt(e, key, i)) == StateAt(e, key, i + 1)
  {
    hide *;
    if i == 0 { Step0(e, key); }
    if i == 1 { Step1(e, key); }
    if i == 2 { Step2(e, key); }
    if i == 3 { Step3(e, key); }
    if i == 4 { Step4(e, key); }
    if i == 5 { Step5(e, key); }
    if i == 6 { Step6(e, key); }
    if i == 7 { Step7(e, key); }
    if i == 8 { Step8(e, key); }
    if i == 9 { Step9(e, key); }
    if i == 10 { Step10(e, key); }
    if i == 11 { Step11(e, key); }
    if i == 12 { Step12(e, key); }
  }

  lemma {:induction false} StepsLead(e: Entries, key: Key, count: nat)
    requires count <= 13
    ensures Run(ONE, Steps(e, key, count)) == StateAt(e, key, count)
    decreases count
  {
    hide Step, StateAt, StepAt;
    if count == 0 {
      Beginning(e, key);
    } else {
      StepsLead(e, key, count - 1);
      StepsFit(e, key, count - 1);
      var before := Steps(e, key, count - 1);
      assert (before + [StepAt(e, key, count - 1)])[..|before|] == before;
    }
  }

  lemma Beginning(e: Entries, key: Key)
    ensures Run(ONE, []) == StateAt(e, key, 0)
  {
    var s, t := Initial(ONE), StateAt(e, key, 0);
    assert s.workers == t.workers && s.comps == t.comps && s.views == t.views && s.sstables == t.sstables;
  }

  /**
   Written, handed over, serialised, written out, pushed as a view and erased from the read-only list, a table's
   entries are still what a lookup of any key answers.
   */
  lemma FlushedWriteIsFound(e: Entries, key: Key)
    ensures var s := Run(ONE, Steps(e, key, 13));
            && s.status == Running && |s.workers| == 1 && s.workers[0].readonly == []
            && s.workers[0].removeN == s.workers[0].preRemoveN == 1 && s.views == [[Table(0, 0, e)]] && s.sstables == [1]
            && s.workers[0].answer == Some(if key in e then Some(e[key]) else None)
  {
    StepsLead(e, key, 13);
    hide Run, Steps;
  }
}
