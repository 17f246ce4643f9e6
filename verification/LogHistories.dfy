/**
 What a log file holds, said from the actions alone: who was registered when, who was taken up by the log thread,
 and what was logged.
 */
module LogHistories {
  import opened Varint
  import opened LogThread

  // --- Read off the actions --------------------------------------------------------------------------

  function Registered(actions: seq<Action>): nat {
    if actions == [] then 0
    else Registered(actions[..|actions| - 1]) + if actions[|actions| - 1] == Register then 1 else 0
  }

  /** What was logged through the logger, from its registration on. */
  function Logged(actions: seq<Action>, i: nat): Bytes {
    if actions == [] then []
    else
      var front, last := actions[..|actions| - 1], actions[|actions| - 1];
      Logged(front, i) + if last.Append? && last.i == i < Registered(front) then last.data else []
  }

  /** The machine's histories are what was logged. */
  lemma {:induction false} HistoriesAreLogged(actions: seq<Action>)
    ensures var s := Run(Initial(), actions);
            && |s.loggers| == |s.histories| == Registered(actions)
            && forall i: nat | i < |s.histories| :: s.histories[i] == Logged(actions, i)
    ensures forall i: nat | Registered(actions) <= i :: Logged(actions, i) == []
  {
    if actions != [] {
      var front, last := actions[..|actions| - 1], actions[|actions| - 1];
      HistoriesAreLogged(front);
      StepHistories(Run(Initial(), front), last);
      hide Step;
    }
  }

  lemma StepHistories(s: State, a: Action)
    requires |s.loggers| == |s.histories|
    ensures var s1 := Step(s, a);
            && |s1.loggers| == |s1.histories| == |s.histories| + (if a == Register then 1 else 0)
            && forall i: nat | i < |s1.histories| ::
                 s1.histories[i] ==
                 (if i < |s.histories| then s.histories[i] else [])
                 + if a.Append? && a.i == i < |s.histories| then a.data else []
  {
  }

  // --- Who is taken up -------------------------------------------------------------------------------

  /** The step at k takes up the waiting loggers, and the logger is one of those registered by then. */
  predicate TakenUpAt(actions: seq<Action>, i: nat, k: nat) {
    k < |actions| && actions[k] == PickUp && Run(Initial(), actions[..k]).place == Waiting && i < Registered(actions[..k])
  }

  /** The thread has taken up a logger exactly if it did so, while waiting, after the logger was registered. */
  lemma {:induction false} PickedIffTakenUp(actions: seq<Action>, i: nat)
    ensures i < Run(Initial(), actions).picked <==> exists k: nat :: TakenUpAt(actions, i, k)
  {
    if actions != [] {
      var front, last := actions[..|actions| - 1], actions[|actions| - 1];
      PickedIffTakenUp(front, i);
      LogRunKeeps(front);
      HistoriesAreLogged(front);
      PickedStep(Run(Initial(), front), last);
      forall k: nat
        ensures TakenUpAt(actions, i, k) <==>
                TakenUpAt(front, i, k)
                || (k == |front| && last == PickUp && Run(Initial(), front).place == Waiting && i < Registered(front))
      {
        assert k <= |front| ==> actions[..k] == front[..k];
        hide Run, Registered;
      }
      hide Step, Inv, Registered, TakenUpAt;
      if last == PickUp && Run(Initial(), front).place == Waiting && i < Registered(front) {
        assert TakenUpAt(actions, i, |front|);
      }
    }
  }

  lemma PickedStep(s: State, a: Action)
    requires Inv(s)
    ensures Step(s, a).picked == (if a == PickUp && s.place == Waiting then |s.loggers| else s.picked) <= |Step(s, a).loggers|
  {
    LogStepKeeps(s, a);
  }

  // --- What the file holds in the end ----------------------------------------------------------------

  /** The step at k is that of the second pass for logger i. */
  predicate HandledLastAt(actions: seq<Action>, i: nat, k: nat) {
    && k < |actions| && actions[k] == Drain
    && Run(Initial(), actions[..k]).place == LastPass(1, i)
    && Run(Initial(), actions[..k + 1]).place == LastPass(1, i + 1)
  }

  lemma LastSwapIffHandled(actions: seq<Action>, i: nat, k: nat)
    ensures LastSwapAt(actions, i, k) <==> HandledLastAt(actions, i, k)
  {
    if k < |actions| {
      LogRunKeeps(actions[..k]);
      assert actions[..k + 1][..k] == actions[..k];
      assert Run(Initial(), actions[..k + 1]) == Step(Run(Initial(), actions[..k]), actions[k]);
      hide Run;
    }
  }

  lemma {:induction false} LoggedOn(before: seq<Action>, after: seq<Action>, i: nat)
    requires i < Registered(before)
    ensures i < Registered(before + after)
    ensures Logged(before + after, i) == Logged(before, i) + Appended(after, i)
    decreases |after|
  {
    var all := before + after;
    if after == [] {
      assert all == before;
    } else {
      var front, last := after[..|after| - 1], after[|after| - 1];
      assert all[..|all| - 1] == before + front;
      LoggedOn(before, front, i);
      var more := if last.Append? && last.i == i then last.data else [];
      AppendConserves(Logged(before, i), Appended(front, i), more);
    }
  }

  /**
   Of every run that ends: a logger taken up by the thread while waiting was handled by the second pass, and the
   file holds of it exactly what was logged before that step, so the whole of it if and only if nothing was logged
   later. Of every other logger the file holds nothing.
   */
  lemma FileHoldsWhatWasLogged(actions: seq<Action>, i: nat)
    requires Run(Initial(), actions).place == Ended && i < Registered(actions)
    ensures (exists k: nat :: TakenUpAt(actions, i, k)) <==> exists k: nat :: HandledLastAt(actions, i, k)
    ensures var file := Run(Initial(), actions).file;
            && (forall k: nat | HandledLastAt(actions, i, k) ::
                  && Projection(file, i) == Logged(actions[..k], i)
                  && (Projection(file, i) == Logged(actions, i) <==> Appended(actions[k + 1..], i) == []))
            && ((forall k: nat :: !TakenUpAt(actions, i, k)) ==> Projection(file, i) == [])
  {
    var s := Run(Initial(), actions);
    HistoriesAreLogged(actions);
    LogRunKeeps(actions);
    PickedIffTakenUp(actions, i);
    WholeIffFlushed(actions, i);
    forall k: nat ensures LastSwapAt(actions, i, k) <==> HandledLastAt(actions, i, k) {
      LastSwapIffHandled(actions, i, k);
    }
    hide LastSwapAt, HandledLastAt, TakenUpAt, Run, Inv, Logged, Registered, Projection;
    forall k: nat | HandledLastAt(actions, i, k)
      ensures i < s.picked && Projection(s.file, i) == Logged(actions[..k], i)
    {
      HandledHolds(actions, i, k);
    }
  }

  lemma HandledHolds(actions: seq<Action>, i: nat, k: nat)
    requires LastSwapAt(actions, i, k) && Run(Initial(), actions).place == Ended
    ensures i < Run(Initial(), actions).picked
    ensures Projection(Run(Initial(), actions).file, i) == Logged(actions[..k], i)
  {
    var before, after := actions[..k], actions[k + 1..];
    LogRunKeeps(before);
    HistoriesAreLogged(before);
    RunAround(actions, k);
    hide Run, Logged, Registered, Projection;
    HandledThen(Run(Initial(), before), after, i);
  }

  lemma RunAround(actions: seq<Action>, k: nat)
    requires k < |actions| && actions[k] == Drain
    ensures Run(Initial(), actions) == Run(Step(Run(Initial(), actions[..k]), Drain), actions[k + 1..])
  {
    var before, after := actions[..k], actions[k + 1..];
    assert (before + [Drain])[..k] == before;
    assert actions == (before + [Drain]) + after;
    RunOn(Initial(), before + [Drain], after);
    hide Step;
  }

  lemma HandledThen(s: State, after: seq<Action>, i: nat)
    requires Inv(s) && s.place == LastPass(1, i) && i < s.picked
    ensures var end := Run(Step(s, Drain), after);
            i < end.picked && Projection(end.file, i) == s.histories[i]
  {
    LogStepKeeps(s, Drain);
    LastSwapFlushes(s, i);
    AfterTheLastSwap(Step(s, Drain), after, i);
    SameHistories(s);
    hide Step, Inv;
  }

  lemma SameHistories(s: State)
    ensures Step(s, Drain).histories == s.histories
  {
  }

  // --- One round -------------------------------------------------------------------------------------

  function Drains(n: nat): (r: seq<Action>)
    ensures |r| == n && forall k: nat | k < n :: r[k] == Drain
  {
    seq(n, _ => Drain)
  }

  /** The loggers before i have been swapped, and nothing was appended to them since. */
  ghost predicate EmptyBelow(s: State, i: nat) {
    i <= |s.loggers| && forall j: nat | j < i :: s.loggers[j].Active() == [] && s.loggers[j].Drained() == []
  }

  /** The swap of a round: the logger is done if there is nothing to write. */
  lemma SwapStep(s: State, i: nat)
    requires Inv(s) && s.place == AtLogger(i) && i < s.picked && EmptyBelow(s, i)
    ensures var one := DrainStep(s);
            && Inv(one) && one.histories == s.histories && one.picked == s.picked
            && (one.place == AtLogger(i + 1) ==> EmptyBelow(one, i + 1))
            && (one.place != AtLogger(i + 1) ==>
                  one.place == Swapped(i) && EmptyBelow(one, i) && one.loggers[i].Active() == [])
  {
    LogStepKeeps(s, Drain);
    hide Conserved;
  }

  lemma WriteAndClear(s: State, i: nat)
    requires Inv(s) && s.place == Swapped(i) && EmptyBelow(s, i) && s.loggers[i].Active() == []
    ensures var t := DrainStep(DrainStep(s));
            && Inv(t) && t.histories == s.histories && t.picked == s.picked && t.place == AtLogger(i + 1)
            && EmptyBelow(t, i + 1)
  {
    LogStepKeeps(s, Drain);
    LogStepKeeps(DrainStep(s), Drain);
    hide Conserved;
  }

  ghost predicate RoundDone(s: State, t: State) {
    && Inv(t) && t.place == Waiting && t.histories == s.histories && t.picked == s.picked
    && EmptyBelow(t, t.picked)
  }

  lemma RoundEnds(s: State)
    requires Inv(s) && s.place == AtLogger(s.picked) && EmptyBelow(s, s.picked)
    ensures RoundDone(s, DrainStep(s))
  {
    LogStepKeeps(s, Drain);
    hide Conserved;
  }

  /** The steps of a round from logger i on. */
  lemma {:induction false} RoundFrom(s: State, i: nat) returns (n: nat)
    requires Inv(s) && s.place == AtLogger(i) && i <= s.picked && EmptyBelow(s, i)
    ensures RoundDone(s, Run(s, Drains(n)))
    decreases s.picked - i
  {
    hide *;
    if i == s.picked {
      n := 1;
      OneDrain(s);
      RoundEnds(s);
    } else {
      SwapStep(s, i);
      var one := DrainStep(s);
      if one.place == AtLogger(i + 1) {
        var more := RoundFrom(one, i + 1);
        n := more + 1;
        DrainFirst(s, more);
        SameRound(s, one, Run(s, Drains(n)));
      } else {
        WriteAndClear(one, i);
        var three := DrainStep(DrainStep(one));
        var more := RoundFrom(three, i + 1);
        n := more + 3;
        DrainFirst(DrainStep(one), more);
        DrainFirst(one, more + 1);
        DrainFirst(s, more + 2);
        SameRound(s, three, Run(s, Drains(n)));
      }
    }
  }

  lemma SameRound(s: State, later: State, t: State)
    requires RoundDone(later, t) && later.histories == s.histories && later.picked == s.picked
    ensures RoundDone(s, t)
  {
  }

  lemma OneDrain(s: State)
    ensures Run(s, Drains(1)) == DrainStep(s)
  {
    assert Drains(1)[..0] == [];
  }

  lemma DrainFirst(s: State, n: nat)
    ensures Run(s, Drains(n + 1)) == Run(DrainStep(s), Drains(n))
  {
    assert Drains(n + 1) == Drains(1) + Drains(n);
    RunOn(s, Drains(1), Drains(n));
    OneDrain(s);
  }

  /**
   A round while no logger appends: from any run at whose end the thread waits, it takes up the loggers, wakes, and
   after some steps waits again, with everything that was logged in the file.
   */
  lemma RoundWritesAll(actions: seq<Action>) returns (n: nat)
    requires Run(Initial(), actions).place == Waiting
    ensures var s := Run(Initial(), actions + [PickUp, Wake] + Drains(n));
            && s.place == Waiting
            && forall i: nat :: Projection(s.file, i) == Logged(actions, i)
  {
    var s0 := Run(Initial(), actions);
    var s1 := Run(Initial(), actions + [PickUp, Wake]);
    LogRunKeeps(actions);
    HistoriesAreLogged(actions);
    PickUpWake(actions);
    LogRunKeeps(actions + [PickUp, Wake]);
    n := RoundFrom(s1, 0);
    RunOn(Initial(), actions + [PickUp, Wake], Drains(n));
    var s := Run(Initial(), actions + [PickUp, Wake] + Drains(n));
    forall i: nat ensures Projection(s.file, i) == Logged(actions, i) {
      hide Run, Logged;
      if i < s.picked {
        assert Conserved(s, i);
        EmptyIsWritten(s, i);
      } else {
        NothingOf(s.file, s.picked, i);
      }
    }
  }

  lemma EmptyIsWritten(s: State, i: nat)
    requires i < |s.loggers| == |s.histories| && Conserved(s, i)
    requires s.loggers[i].Active() == [] && s.loggers[i].Drained() == []
    ensures Projection(s.file, i) == s.histories[i]
  {
  }

  lemma PickUpWake(actions: seq<Action>)
    requires Run(Initial(), actions).place == Waiting
    ensures var s0 := Run(Initial(), actions);
            Run(Initial(), actions + [PickUp, Wake]) == s0.(picked := |s0.loggers|, place := AtLogger(0))
  {
    assert (actions + [PickUp, Wake])[..|actions| + 1] == actions + [PickUp];
    assert (actions + [PickUp])[..|actions|] == actions;
    assert Run(Initial(), actions + [PickUp]) == Step(Run(Initial(), actions), PickUp);
  }
}
