/**
 Double-buffered logging. Each logger appends to one of two buffers; the log thread swaps the buffers under the
 logger's lock, writes the drained one to the file and clears it, and when it is stopped flushes every logger
 it has picked up twice.
 */
module LogThread {
  import opened Varint

  // --- A logger's two buffers ------------------------------------------------------------------------

  datatype Buffers = Buffers(head: Bytes, tail: Bytes, atHead: bool) {
    function Active(): Bytes {
      if atHead then head else tail
    }

    function Drained(): Bytes {
      if atHead then tail else head
    }

    function Push(data: Bytes): (r: Buffers)
      ensures r.Active() == Active() + data && r.Drained() == Drained()
    {
      if atHead then this.(head := head + data) else this.(tail := tail + data)
    }

    function Swap(): (r: Buffers)
      ensures r.Active() == Drained() && r.Drained() == Active()
    {
      this.(atHead := !atHead)
    }

    function Clear(): (r: Buffers)
      ensures r.Active() == Active() && r.Drained() == []
    {
      if atHead then this.(tail := []) else this.(head := [])
    }
  }

  // --- The machine -----------------------------------------------------------------------------------

  /** What the log thread does next; in the last passes a logger is handled under its lock, in one step. */
  datatype Place = Waiting | AtLogger(i: nat) | Swapped(i: nat) | Written(i: nat) | LastPass(pass: nat, i: nat) | Ended

  datatype Chunk = Chunk(logger: nat, data: Bytes)

  /** Loggers in the order of registration, of which the thread has picked up the first few. */
  datatype State = State(
    loggers: seq<Buffers>, picked: nat, running: bool, place: Place, file: seq<Chunk>, histories: seq<Bytes>)

  datatype Action = Register | Append(i: nat, data: Bytes) | Stop | PickUp | Wake | Drain

  function Initial(): State {
    State([], 0, true, Waiting, [], [])
  }

  function DrainStep(s: State): State {
    match s.place
    case Waiting => if s.running then s else s.(place := LastPass(0, 0))
    case AtLogger(i) =>
      if i < s.picked <= |s.loggers| then
        var swapped := s.loggers[i].Swap();
        s.(loggers := s.loggers[i := swapped], place := if swapped.Drained() == [] then AtLogger(i + 1) else Swapped(i))
      else s.(place := Waiting)
    case Swapped(i) =>
      if i < |s.loggers| then s.(file := s.file + [Chunk(i, s.loggers[i].Drained())], place := Written(i)) else s
    case Written(i) =>
      if i < |s.loggers| then s.(loggers := s.loggers[i := s.loggers[i].Clear()], place := AtLogger(i + 1)) else s
    case LastPass(pass, i) =>
      if i < s.picked <= |s.loggers| then
        var swapped := s.loggers[i].Swap();
        s.(loggers := s.loggers[i := swapped.Clear()],
           file := if swapped.Drained() == [] then s.file else s.file + [Chunk(i, swapped.Drained())],
           place := LastPass(pass, i + 1))
      else s.(place := if pass == 0 then LastPass(1, 0) else Ended)
    case Ended => s
  }

  function Step(s: State, a: Action): State {
    match a
    case Register => s.(loggers := s.loggers + [Buffers([], [], true)], histories := s.histories + [[]])
    case Append(i, data) =>
      if i < |s.loggers| && i < |s.histories| then
        s.(loggers := s.loggers[i := s.loggers[i].Push(data)], histories := s.histories[i := s.histories[i] + data])
      else s
    case Stop => s.(running := false)
    case PickUp => if s.place == Waiting then s.(picked := |s.loggers|) else s
    case Wake => if s.place == Waiting then s.(place := AtLogger(0)) else s
    case Drain => DrainStep(s)
  }

  function Run(s: State, actions: seq<Action>): State {
    if actions == [] then s else Step(Run(s, actions[..|actions| - 1]), actions[|actions| - 1])
  }

  // --- Conservation ----------------------------------------------------------------------------------

  /** What the file holds of one logger. */
  function Projection(file: seq<Chunk>, i: nat): Bytes {
    if file == [] then []
    else Projection(file[..|file| - 1], i) + if file[|file| - 1].logger == i then file[|file| - 1].data else []
  }

  /** The drained buffer, as long as it has not been written. */
  function Unwritten(s: State, i: nat): Bytes
    requires i < |s.loggers|
  {
    if s.place == Written(i) then [] else s.loggers[i].Drained()
  }

  ghost predicate Conserved(s: State, i: nat)
    requires i < |s.loggers| == |s.histories|
  {
    Projection(s.file, i) + Unwritten(s, i) + s.loggers[i].Active() == s.histories[i]
  }

  ghost predicate Inv(s: State) {
    && s.picked <= |s.loggers| == |s.histories|
    && (s.place.Swapped? || s.place.Written? ==> s.place.i < s.picked)
    && (s.place.LastPass? || s.place.Ended? ==> !s.running)
    && (s.place.LastPass? ==> s.place.pass <= 1)
    && (forall i: nat | i < |s.loggers| :: Conserved(s, i))
    && (forall i: nat | i < |s.loggers| && s.place != Swapped(i) && s.place != Written(i) :: s.loggers[i].Drained() == [])
    && (forall k: nat | k < |s.file| :: s.file[k].logger < s.picked)
  }

  lemma ProjectionGrows(file: seq<Chunk>, chunk: Chunk, i: nat)
    ensures Projection(file + [chunk], i) == Projection(file, i) + if chunk.logger == i then chunk.data else []
  {
    assert (file + [chunk])[..|file|] == file;
  }

  /** The file holds nothing of a logger that was not picked up. */
  lemma {:induction false} NothingOf(file: seq<Chunk>, picked: nat, i: nat)
    requires picked <= i && forall k: nat | k < |file| :: file[k].logger < picked
    ensures Projection(file, i) == []
  {
    if file != [] { NothingOf(file[..|file| - 1], picked, i); }
  }

  lemma RegisterKeeps(s: State)
    requires Inv(s)
    ensures Inv(Step(s, Register))
  {
    var s1 := Step(s, Register);
    forall i: nat | i < |s1.loggers| ensures Conserved(s1, i) {
      if i < |s.loggers| {
        assert Conserved(s, i);
      } else {
        NothingOf(s.file, s.picked, i);
      }
    }
  }

  lemma AppendKeeps(s: State, i: nat, data: Bytes)
    requires Inv(s)
    ensures Inv(Step(s, Append(i, data)))
  {
    var s1 := Step(s, Append(i, data));
    forall j: nat | j < |s1.loggers| ensures Conserved(s1, j) {
      assert Conserved(s, j);
      if i == j {
        AppendConserves(Projection(s.file, i) + Unwritten(s, i), s.loggers[i].Active(), data);
      }
    }
  }

  lemma AppendConserves(written: Bytes, active: Bytes, data: Bytes)
    ensures written + (active + data) == (written + active) + data
  {
  }

  /** The swap: what was active is now drained, and what was drained was empty. */
  lemma SwapConserves(s: State, j: nat)
    requires s.picked <= |s.loggers| == |s.histories| && s.place.AtLogger? && j < |s.loggers|
    requires Conserved(s, j) && s.loggers[j].Drained() == []
    ensures Conserved(DrainStep(s), j)
  {
    hide Projection, Buffers.Active, Buffers.Drained, Buffers.Swap, Buffers.Clear;
    Empties(Projection(s.file, j), s.loggers[j].Active());
  }

  lemma SwapKeeps(s: State)
    requires Inv(s) && s.place.AtLogger?
    ensures Inv(DrainStep(s))
  {
    var s1 := DrainStep(s);
    forall j: nat | j < |s1.loggers| ensures Conserved(s1, j) {
      hide Conserved;
      SwapConserves(s, j);
    }
    hide Conserved;
  }

  lemma Empties(a: Bytes, b: Bytes)
    ensures a + [] == a
    ensures a + [] + b == a + b
    ensures a + b + [] == a + b
    ensures a + b + [] + [] == a + b
  {
    assert a + [] == a;
    assert a + b + [] == a + b;
  }

  lemma WriteConserves(s: State, j: nat)
    requires s.picked <= |s.loggers| == |s.histories| && s.place.Swapped? && j < |s.loggers| && s.place.i < |s.loggers|
    requires Conserved(s, j) && (s.place.i != j ==> s.loggers[j].Drained() == [])
    ensures Conserved(DrainStep(s), j)
  {
    hide Projection, Buffers.Active, Buffers.Drained;
    ProjectionGrows(s.file, Chunk(s.place.i, s.loggers[s.place.i].Drained()), j);
    Empties(Projection(s.file, j), s.loggers[j].Drained());
    Empties(Projection(s.file, j), s.loggers[j].Active());
  }

  lemma WriteKeeps(s: State)
    requires Inv(s) && s.place.Swapped?
    ensures Inv(DrainStep(s))
  {
    var s1 := DrainStep(s);
    forall j: nat | j < |s1.loggers| ensures Conserved(s1, j) {
      hide Conserved;
      WriteConserves(s, j);
    }
    hide Conserved;
  }

  lemma ClearKeeps(s: State)
    requires Inv(s) && s.place.Written?
    ensures Inv(DrainStep(s))
  {
    var s1 := DrainStep(s);
    forall j: nat | j < |s1.loggers| ensures Conserved(s1, j) {
      assert Conserved(s, j);
    }
  }

  lemma LastPassConserves(s: State, j: nat)
    requires s.picked <= |s.loggers| == |s.histories| && s.place.LastPass? && j < |s.loggers|
    requires Conserved(s, j) && s.loggers[j].Drained() == []
    ensures Conserved(DrainStep(s), j)
  {
    hide Projection, Buffers.Active, Buffers.Drained, Buffers.Swap, Buffers.Clear;
    var i := s.place.i;
    Empties(Projection(s.file, j), s.loggers[j].Active());
    if i < s.picked {
      ProjectionGrows(s.file, Chunk(i, s.loggers[i].Swap().Drained()), j);
    }
  }

  lemma LastPassKeeps(s: State)
    requires Inv(s) && s.place.LastPass?
    ensures Inv(DrainStep(s))
  {
    var s1 := DrainStep(s);
    forall j: nat | j < |s1.loggers| ensures Conserved(s1, j) {
      hide Conserved;
      LastPassConserves(s, j);
    }
    hide Conserved;
  }

  lemma WaitingKeeps(s: State)
    requires Inv(s) && (s.place.Waiting? || s.place.Ended?)
    ensures Inv(DrainStep(s))
  {
    var s1 := DrainStep(s);
    forall j: nat | j < |s1.loggers| ensures Conserved(s1, j) {
      assert Conserved(s, j);
    }
  }

  lemma IdleKeeps(s: State, a: Action)
    requires Inv(s) && (a.Stop? || a.PickUp? || a.Wake?)
    ensures Inv(Step(s, a))
  {
    var s1 := Step(s, a);
    forall j: nat | j < |s1.loggers| ensures Conserved(s1, j) {
      assert Conserved(s, j);
    }
  }

  /** Every step keeps it: file, drained buffer not yet written, and active buffer make up each logger's history. */
  lemma LogStepKeeps(s: State, a: Action)
    requires Inv(s)
    ensures Inv(Step(s, a))
  {
    match a
    case Register => RegisterKeeps(s);
    case Append(i, data) => AppendKeeps(s, i, data);
    case Drain =>
      match s.place {
        case AtLogger(_) => SwapKeeps(s);
        case Swapped(_) => WriteKeeps(s);
        case Written(_) => ClearKeeps(s);
        case LastPass(_, _) => LastPassKeeps(s);
        case _ => WaitingKeeps(s);
      }
    case _ => IdleKeeps(s, a);
  }

  lemma {:induction false} LogRunKeeps(actions: seq<Action>)
    ensures Inv(Run(Initial(), actions))
  {
    if actions != [] {
      LogRunKeeps(actions[..|actions| - 1]);
      LogStepKeeps(Run(Initial(), actions[..|actions| - 1]), actions[|actions| - 1]);
    }
  }

  // --- What the file holds in the end ----------------------------------------------------------------

  lemma NothingBehind(a: Bytes, b: Bytes)
    ensures a + [] == a
    ensures a + b == a <==> b == []
  {
    assert |a + b| == |a| + |b|;
  }

  function Appended(actions: seq<Action>, i: nat): Bytes {
    if actions == [] then []
    else
      var last := actions[|actions| - 1];
      Appended(actions[..|actions| - 1], i) + if last.Append? && last.i == i then last.data else []
  }

  /** The second pass has handled the logger. */
  predicate SwappedLast(s: State, i: nat) {
    i < s.picked && (s.place == Ended || (s.place.LastPass? && s.place.pass != 0 && i < s.place.i))
  }

  /**
   From the moment the second pass has handled a logger, its active buffer collects everything appended to it,
   and none of it ever reaches the file.
   */
  lemma {:induction false} AfterTheLastSwap(s: State, actions: seq<Action>, i: nat)
    requires Inv(s) && SwappedLast(s, i)
    ensures var s1 := Run(s, actions);
            && Inv(s1) && SwappedLast(s1, i)
            && Projection(s1.file, i) == Projection(s.file, i)
            && s1.loggers[i].Active() == s.loggers[i].Active() + Appended(actions, i)
  {
    if actions != [] {
      var front := actions[..|actions| - 1];
      AfterTheLastSwap(s, front, i);
      LateStep(Run(s, front), actions[|actions| - 1], i);
      AppendConserves(s.loggers[i].Active(), Appended(front, i), Appended(actions, i)[|Appended(front, i)|..]);
    }
  }

  lemma LateStep(s: State, a: Action, i: nat)
    requires Inv(s) && SwappedLast(s, i)
    ensures var s1 := Step(s, a);
            && Inv(s1) && SwappedLast(s1, i)
            && Projection(s1.file, i) == Projection(s.file, i)
            && s1.loggers[i].Active() == s.loggers[i].Active() + if a.Append? && a.i == i then a.data else []
  {
    LogStepKeeps(s, a);
    if a.Drain? && s.place.LastPass? && s.place.i < |s.loggers| {
      ProjectionGrows(s.file, Chunk(s.place.i, s.loggers[s.place.i].Swap().Drained()), i);
    }
  }

  /** The step of the second pass that handles a logger leaves both its buffers empty and its history in the file. */
  lemma LastSwapFlushes(s: State, i: nat)
    requires Inv(s) && s.place == LastPass(1, i) && i < s.picked
    ensures var s1 := Step(s, Drain);
            && SwappedLast(s1, i) && s1.loggers[i].Active() == [] && Projection(s1.file, i) == s1.histories[i]
  {
    LogStepKeeps(s, Drain);
    var s1 := Step(s, Drain);
    assert Conserved(s1, i);
    assert s.loggers[i].Drained() == [];
  }

  lemma {:induction false} RunOn(s: State, a: seq<Action>, b: seq<Action>)
    ensures Run(s, a + b) == Run(Run(s, a), b)
    decreases |b|
  {
    hide Step;
    if b == [] {
      assert a + b == a;
    } else {
      assert (a + b)[..|a + b| - 1] == a + b[..|b| - 1];
      RunOn(s, a, b[..|b| - 1]);
    }
  }

  /** The step at k is the one in which the second pass handles logger i. */
  predicate LastSwapAt(actions: seq<Action>, i: nat, k: nat) {
    && k < |actions| && actions[k] == Drain
    && var s := Run(Initial(), actions[..k]);
       s.place == LastPass(1, i) && i < s.picked
  }

  /** Before the second pass has handled a logger there is the step in which it does. */
  lemma {:induction false} LastSwapHappens(actions: seq<Action>, i: nat) returns (k: nat)
    requires SwappedLast(Run(Initial(), actions), i)
    ensures LastSwapAt(actions, i, k)
  {
    var front := actions[..|actions| - 1];
    if SwappedLast(Run(Initial(), front), i) {
      k := LastSwapHappens(front, i);
      assert actions[..k] == front[..k];
    } else {
      k := |front|;
      LogRunKeeps(front);
      hide SwappedLast, Step, Inv;
      SecondPassSwaps(Run(Initial(), front), actions[k], i);
    }
  }

  lemma SecondPassSwaps(s: State, a: Action, i: nat)
    requires Inv(s) && !SwappedLast(s, i) && SwappedLast(Step(s, a), i)
    ensures a == Drain && s.place == LastPass(1, i) && i < s.picked
  {
    hide Conserved;
  }

  /**
   Of every run at whose end the thread has ended: a logger that was picked up was handled by the second pass at some
   step, and the file holds its whole history, once, exactly if nothing was appended to it after that step. Nothing
   of a logger that was not picked up is in the file.
   */
  lemma WholeIffFlushed(actions: seq<Action>, i: nat)
    requires var s := Run(Initial(), actions); s.place == Ended && i < |s.loggers|
    ensures |Run(Initial(), actions).histories| == |Run(Initial(), actions).loggers|
    ensures i < Run(Initial(), actions).picked ==> exists k: nat :: LastSwapAt(actions, i, k)
    ensures var s := Run(Initial(), actions);
            forall k: nat | LastSwapAt(actions, i, k) ::
              Projection(s.file, i) == s.histories[i] <==> Appended(actions[k + 1..], i) == []
    ensures Run(Initial(), actions).picked <= i ==> Projection(Run(Initial(), actions).file, i) == []
  {
    var s := Run(Initial(), actions);
    LogRunKeeps(actions);
    if i < s.picked {
      var k := LastSwapHappens(actions, i);
    } else {
      NothingOf(s.file, s.picked, i);
    }
    forall k: nat | LastSwapAt(actions, i, k)
      ensures Projection(s.file, i) == s.histories[i] <==> Appended(actions[k + 1..], i) == []
    {
      hide *;
      WholeFrom(actions, i, k);
    }
    hide Run, Projection, Inv, LastSwapAt;
  }

  lemma WholeFrom(actions: seq<Action>, i: nat, k: nat)
    requires LastSwapAt(actions, i, k) && Run(Initial(), actions).place == Ended
    ensures var s := Run(Initial(), actions);
            && i < |s.histories|
            && (Projection(s.file, i) == s.histories[i] <==> Appended(actions[k + 1..], i) == [])
  {
    var before, after := actions[..k], actions[k + 1..];
    var s0, s := Run(Initial(), before), Run(Initial(), actions);
    var s1 := Step(s0, Drain);
    LogRunKeeps(before);
    assert (before + [Drain])[..k] == before;
    assert Run(Initial(), before + [Drain]) == s1;
    assert actions == (before + [Drain]) + after;
    RunOn(Initial(), before + [Drain], after);
    LogStepKeeps(s0, Drain);
    LastSwapFlushes(s0, i);
    AfterTheLastSwap(s1, after, i);
    hide Run, Step, Appended;
    assert Conserved(s, i);
    assert s.loggers[i].Drained() == [];
    hide Projection, Conserved, Inv;
    EndIsWhole(s, i, Appended(after, i));
  }

  lemma EndIsWhole(s: State, i: nat, late: Bytes)
    requires i < |s.loggers| == |s.histories| && s.place == Ended
    requires Conserved(s, i) && s.loggers[i].Drained() == [] && s.loggers[i].Active() == [] + late
    ensures Projection(s.file, i) == s.histories[i] <==> late == []
  {
    hide Projection;
    assert [] + late == late;
    NothingBehind(Projection(s.file, i), late);
    Empties(Projection(s.file, i), late);
  }

  /** A run that loses a line: it is logged after the second pass has handled its logger. */
  lemma LateAppendIsLost(line: Bytes)
    requires line != []
    ensures var s := Run(Initial(), [Register, PickUp, Stop, Drain, Drain, Drain, Drain, Append(0, line), Drain]);
            && s.place == Ended && s.picked == 1 && |s.histories| == 1
            && s.histories[0] == line && Projection(s.file, 0) == []
  {
    var quiet := Buffers([], [], true);
    var s1 := State([quiet], 1, false, LastPass(0, 0), [], [[]]);
    LateStart(s1);
    var s2 := State([quiet], 1, false, LastPass(1, 1), [], [[]]);
    LatePasses(s1, s2);
    var first, middle, last: seq<Action> := [Register, PickUp, Stop, Drain], [Drain, Drain, Drain], [Append(0, line), Drain];
    RunOn(Initial(), first, middle);
    RunOn(Initial(), first + middle, last);
    assert first + middle + last == [Register, PickUp, Stop, Drain, Drain, Drain, Drain, Append(0, line), Drain];
    LateLine(s2, line);
  }

  lemma LateStart(s1: State)
    requires s1 == State([Buffers([], [], true)], 1, false, LastPass(0, 0), [], [[]])
    ensures Run(Initial(), [Register, PickUp, Stop, Drain]) == s1
  {
    var a: seq<Action> := [Register, PickUp, Stop, Drain];
    assert a[..3] == [Register, PickUp, Stop] && a[..3][..2] == [Register, PickUp] && a[..3][..2][..1] == [Register];
    assert Run(Initial(), [Register]) == Step(Initial(), Register);
    assert Run(Initial(), a[..3][..2]) == Step(Step(Initial(), Register), PickUp);
    assert Run(Initial(), a[..3]) == Step(Step(Step(Initial(), Register), PickUp), Stop);
  }

  lemma LatePasses(s1: State, s2: State)
    requires s1 == State([Buffers([], [], true)], 1, false, LastPass(0, 0), [], [[]])
    requires s2 == State([Buffers([], [], true)], 1, false, LastPass(1, 1), [], [[]])
    ensures Run(s1, [Drain, Drain, Drain]) == s2
  {
    var a: seq<Action> := [Drain, Drain, Drain];
    assert a[..2] == [Drain, Drain] && a[..2][..1] == [Drain];
    assert Run(s1, [Drain]) == DrainStep(s1) == s1.(loggers := [Buffers([], [], false)], place := LastPass(0, 1));
    assert Run(s1, a[..2]) == DrainStep(DrainStep(s1));
  }

  lemma LateLine(s2: State, line: Bytes)
    requires s2 == State([Buffers([], [], true)], 1, false, LastPass(1, 1), [], [[]])
    ensures var s := Run(s2, [Append(0, line), Drain]);
            s.place == Ended && s.picked == 1 && s.histories == [line] && s.file == []
  {
    var a: seq<Action> := [Append(0, line), Drain];
    assert a[..1] == [Append(0, line)];
    assert Run(s2, a[..1]) == Step(s2, Append(0, line));
    assert [] + line == line;
  }
}
