/** The buffer object of a logger and the loops of the log thread, as steps of the machine. */
module LogObjects {
  import opened Varint
  import T = LogThread

  class VecLogBuffer {
    var head: Bytes
    var tail: Bytes
    var currentIsHead: bool

    ghost function State(): T.Buffers
      reads this
    {
      T.Buffers(head, tail, currentIsHead)
    }

    constructor ()
      ensures State() == T.Buffers([], [], true)
    {
      head, tail, currentIsHead := [], [], true;
    }

    /** The locked append of a logger. */
    method LogMent(data: Bytes)
      modifies this
      ensures State() == old(State()).Push(data)
      ensures State().Active() == old(State()).Active() + data && State().Drained() == old(State()).Drained()
    {
      if currentIsHead {
        head := head + data;
      } else {
        tail := tail + data;
      }
    }

    /** Appends go to the other buffer from now on; the one they went to is handed out. */
    method SwapBuffer() returns (drained: Bytes)
      modifies this
      ensures State() == old(State()).Swap()
      ensures drained == State().Drained() == old(State()).Active() && State().Active() == old(State()).Drained()
    {
      currentIsHead := !currentIsHead;
      drained := if currentIsHead then tail else head;
    }

    method ClearDrained()
      modifies this
      ensures State() == old(State()).Clear()
    {
      if currentIsHead {
        tail := [];
      } else {
        head := [];
      }
    }
  }

  ghost function States(loggers: seq<VecLogBuffer>): (r: seq<T.Buffers>)
    reads loggers
    ensures |r| == |loggers|
  {
    seq(|loggers|, i requires 0 <= i < |loggers| reads loggers => loggers[i].State())
  }

  ghost predicate Distinct(loggers: seq<VecLogBuffer>) {
    forall i: nat, j: nat | i < j < |loggers| :: loggers[i] != loggers[j]
  }

  /** The machine after a number of steps of the log thread. */
  function Drains(s: T.State, n: nat): T.State {
    if n == 0 then s else T.DrainStep(Drains(s, n - 1))
  }

  /** What both loops do with one logger: swap, then write and clear unless there is nothing to write. */
  method DrainLogger(loggers: seq<VecLogBuffer>, i: nat, file: seq<T.Chunk>) returns (written: seq<T.Chunk>)
    requires Distinct(loggers) && i < |loggers|
    modifies loggers
    ensures Drained(old(States(loggers)), file, i, States(loggers), written)
  {
    var drained := loggers[i].SwapBuffer();
    if drained == [] {
      return file;
    }
    written := file + [T.Chunk(i, drained)];
    loggers[i].ClearDrained();
  }

  /** The machine with one logger swapped, written unless empty, and cleared. */
  function Handled(at: T.State, i: nat, next: T.Place): T.State
    requires i < |at.loggers|
  {
    var active := at.loggers[i].Active();
    at.(loggers := at.loggers[i := at.loggers[i].Swap().Clear()],
        file := if active == [] then at.file else at.file + [T.Chunk(i, active)],
        place := next)
  }

  /** The machine with the loggers and the file as they are, at a place. */
  function With(s: T.State, loggers: seq<T.Buffers>, file: seq<T.Chunk>, place: T.Place): T.State {
    s.(loggers := loggers, file := file, place := place)
  }

  /** What DrainLogger does, as a step of the machine. */
  predicate Drained(before: seq<T.Buffers>, file: seq<T.Chunk>, i: nat, loggers: seq<T.Buffers>, written: seq<T.Chunk>) {
    && i < |before|
    && loggers == before[i := before[i].Swap().Clear()]
    && written == if before[i].Active() == [] then file else file + [T.Chunk(i, before[i].Active())]
  }

  lemma HandledIs(s: T.State, before: seq<T.Buffers>, file: seq<T.Chunk>, place: T.Place, i: nat, next: T.Place,
                  loggers: seq<T.Buffers>, written: seq<T.Chunk>)
    requires Drained(before, file, i, loggers, written)
    ensures Handled(With(s, before, file, place), i, next) == With(s, loggers, written, next)
  {
  }

  /** One of the two passes after the thread is stopped, while no logger appends. */
  method LastPass(loggers: seq<VecLogBuffer>, file: seq<T.Chunk>, ghost s: T.State) returns (written: seq<T.Chunk>)
    requires Distinct(loggers)
    requires s.loggers == States(loggers) && s.picked == |loggers| && s.file == file
    requires s.place.LastPass? && s.place.i == 0
    modifies loggers
    ensures Drains(s, |loggers|) == With(s, States(loggers), written, T.LastPass(s.place.pass, |loggers|))
  {
    written := file;
    for i := 0 to |loggers|
      invariant Drains(s, i) == With(s, States(loggers), written, T.LastPass(s.place.pass, i))
    {
      hide *;
      ghost var before, chunks := States(loggers), written;
      written := DrainLogger(loggers, i, written);
      ghost var after := States(loggers);
      PassStep(s, i, before, chunks, after, written);
    }
  }

  lemma PassStep(s: T.State, i: nat, before: seq<T.Buffers>, file: seq<T.Chunk>, after: seq<T.Buffers>, written: seq<T.Chunk>)
    requires s.place.LastPass? && i < s.picked == |before|
    requires Drains(s, i) == With(s, before, file, T.LastPass(s.place.pass, i))
    requires Drained(before, file, i, after, written)
    ensures Drains(s, i + 1) == With(s, after, written, T.LastPass(s.place.pass, i + 1))
  {
    LastPassOfLogger(s, i, i);
    HandledIs(s, before, file, T.LastPass(s.place.pass, i), i, T.LastPass(s.place.pass, i + 1), after, written);
    hide Drains, Handled;
  }

  lemma LastPassOfLogger(s: T.State, n: nat, i: nat)
    requires var at := Drains(s, n); at.place.LastPass? && at.place.i == i < at.picked <= |at.loggers|
    ensures Drains(s, n + 1) == Handled(Drains(s, n), i, T.LastPass(Drains(s, n).place.pass, i + 1))
  {
  }

  /** One round of the thread while no logger appends. */
  method Round(loggers: seq<VecLogBuffer>, file: seq<T.Chunk>, ghost s: T.State) returns (written: seq<T.Chunk>, ghost steps: nat)
    requires Distinct(loggers)
    requires s.loggers == States(loggers) && s.picked == |loggers| && s.file == file && s.place == T.AtLogger(0)
    modifies loggers
    ensures Drains(s, steps) == With(s, States(loggers), written, T.AtLogger(|loggers|))
  {
    written, steps := file, 0;
    for i := 0 to |loggers|
      invariant Drains(s, steps) == With(s, States(loggers), written, T.AtLogger(i))
    {
      hide *;
      ghost var before, chunks := States(loggers), written;
      written := DrainLogger(loggers, i, written);
      ghost var after := States(loggers);
      steps := RoundStep(s, steps, i, before, chunks, after, written);
    }
  }

  lemma RoundStep(s: T.State, n: nat, i: nat, before: seq<T.Buffers>, file: seq<T.Chunk>, after: seq<T.Buffers>, written: seq<T.Chunk>)
    returns (steps: nat)
    requires i < s.picked == |before|
    requires Drains(s, n) == With(s, before, file, T.AtLogger(i))
    requires Drained(before, file, i, after, written)
    ensures Drains(s, steps) == With(s, after, written, T.AtLogger(i + 1))
  {
    var more := RoundOfLogger(s, n, i);
    steps := n + more;
    HandledIs(s, before, file, T.AtLogger(i), i, T.AtLogger(i + 1), after, written);
    hide Drains, Handled;
  }

  /** The steps of the thread for one logger: one when its drained buffer is empty, three when it is not. */
  lemma RoundOfLogger(s: T.State, n: nat, i: nat) returns (more: nat)
    requires var at := Drains(s, n); at.place == T.AtLogger(i) && i < at.picked <= |at.loggers|
    ensures Drains(s, n + more) == Handled(Drains(s, n), i, T.AtLogger(i + 1))
  {
    var at := Drains(s, n);
    var swapped := at.loggers[i].Swap();
    MoreDrains(s, n);
    hide Drains, T.DrainStep, Handled;
    if swapped.Drained() == [] {
      more := 1;
      OneStep(at, i, swapped);
    } else {
      more := 3;
      ThreeSteps(at, i, swapped);
    }
  }

  lemma OneStep(at: T.State, i: nat, swapped: T.Buffers)
    requires at.place == T.AtLogger(i) && i < at.picked <= |at.loggers|
    requires swapped == at.loggers[i].Swap() && swapped.Drained() == []
    ensures T.DrainStep(at) == Handled(at, i, T.AtLogger(i + 1))
  {
    assert swapped.Clear() == swapped;
  }

  lemma MoreDrains(s: T.State, n: nat)
    ensures Drains(s, n + 1) == T.DrainStep(Drains(s, n))
    ensures Drains(s, n + 3) == T.DrainStep(T.DrainStep(T.DrainStep(Drains(s, n))))
  {
    hide T.DrainStep;
    assert Drains(s, n + 2) == T.DrainStep(Drains(s, n + 1));
  }

  lemma ThreeSteps(at: T.State, i: nat, swapped: T.Buffers)
    requires at.place == T.AtLogger(i) && i < at.picked <= |at.loggers|
    requires swapped == at.loggers[i].Swap() && swapped.Drained() != []
    ensures T.DrainStep(T.DrainStep(T.DrainStep(at))) == Handled(at, i, T.AtLogger(i + 1))
  {
    var one := at.(loggers := at.loggers[i := swapped], place := T.Swapped(i));
    var two := one.(file := at.file + [T.Chunk(i, swapped.Drained())], place := T.Written(i));
    assert T.DrainStep(at) == one;
    assert T.DrainStep(one) == two;
    assert two.loggers[i := swapped.Clear()] == at.loggers[i := swapped.Clear()];
  }
}
