/**
  A shared maximum kept with compare-and-swap (crates/etl-benchmarks/src/common.rs), as a
  state machine: any number of threads, any interleaving, spurious failures allowed. A
  relaxed load, and the load of a failed exchange, may yield a value that has been
  overwritten; a successful exchange works on the current one.
*/
module AtomicMax {
  import opened Wrappers

  type U64 = nat

  datatype Thread =
    | Idle(candidate: U64)                  // not called yet
    | Looping(candidate: U64, seen: U64)    // has loaded `seen`
    | Returned(candidate: U64)

  /** All values the shared variable has had, the current one last. */
  datatype State = State(values: seq<U64>, threads: seq<Thread>)

  function Current(st: State): U64
    requires st.values != []
  {
    st.values[|st.values| - 1]
  }

  datatype Step =
    | Load(i: nat, k: nat)                  // yields the `k`-th value
    | Stop(i: nat)                          // the loop condition fails
    | Swap(i: nat)                          // the exchange succeeds
    | Miss(i: nat, k: nat)                  // the exchange fails, perhaps spuriously, and yields the `k`-th value

  predicate Enabled(st: State, step: Step) {
    st.values != [] && step.i < |st.threads| &&
    var t := st.threads[step.i];
    match step
    case Load(_, k) => t.Idle? && k < |st.values|
    case Stop(_) => t.Looping? && t.candidate <= t.seen
    case Swap(_) => t.Looping? && t.candidate > t.seen && Current(st) == t.seen
    case Miss(_, k) => t.Looping? && t.candidate > t.seen && k < |st.values|
  }

  function Next(st: State, step: Step): State
    requires Enabled(st, step)
  {
    var t := st.threads[step.i];
    match step
    case Load(i, k) => st.(threads := st.threads[i := Looping(t.candidate, st.values[k])])
    case Stop(i) => st.(threads := st.threads[i := Returned(t.candidate)])
    case Swap(i) => State(st.values + [t.candidate], st.threads[i := Returned(t.candidate)])
    case Miss(i, k) => st.(threads := st.threads[i := Looping(t.candidate, st.values[k])])
  }

  ghost predicate CanRun(st: State, steps: seq<Step>)
    decreases |steps|
  {
    steps == [] || (Enabled(st, steps[0]) && CanRun(Next(st, steps[0]), steps[1..]))
  }

  ghost function Final(st: State, steps: seq<Step>): State
    requires CanRun(st, steps)
    decreases |steps|
  {
    if steps == [] then st else Final(Next(st, steps[0]), steps[1..])
  }

  predicate Fresh(st: State) {
    |st.values| == 1 && forall i :: 0 <= i < |st.threads| ==> st.threads[i].Idle?
  }

  /** The values only grow, every call that returned is covered, and only candidates were ever written. */
  ghost predicate Inv(start: State, st: State)
    requires |start.values| == 1
  {
    && st.values != [] && st.values[0] == start.values[0]
    && |st.threads| == |start.threads|
    && (forall i :: 0 <= i < |st.threads| ==> st.threads[i].candidate == start.threads[i].candidate)
    && (forall k :: 0 <= k < |st.values| ==> st.values[k] <= Current(st))
    && (forall i :: 0 <= i < |st.threads| && st.threads[i].Returned? ==> st.threads[i].candidate <= Current(st))
    && (forall i :: 0 <= i < |st.threads| && st.threads[i].Looping? ==> st.threads[i].seen in st.values)
    && (forall k :: 0 < k < |st.values| ==> exists i :: 0 <= i < |st.threads| && st.values[k] == start.threads[i].candidate)
  }

  lemma StepInv(start: State, st: State, step: Step)
    requires |start.values| == 1 && Inv(start, st) && Enabled(st, step)
    ensures Inv(start, Next(st, step)) && st.values <= Next(st, step).values
  {
    var st', t := Next(st, step), st.threads[step.i];
    if step.Swap? {
      assert st'.values == st.values + [t.candidate] && t.candidate == start.threads[step.i].candidate;
      assert forall k :: 0 <= k < |st.values| ==> st'.values[k] == st.values[k];
    }
  }

  lemma {:induction false} RunInv(start: State, st: State, steps: seq<Step>)
    requires |start.values| == 1 && Inv(start, st) && CanRun(st, steps)
    ensures Inv(start, Final(st, steps)) && st.values <= Final(st, steps).values
    decreases |steps|
  {
    if steps != [] {
      StepInv(start, st, steps[0]);
      RunInv(start, Next(st, steps[0]), steps[1..]);
    }
  }

  /** The largest of the starting value and all candidates. */
  function Largest(value: U64, threads: seq<Thread>): (m: U64)
    ensures value <= m && forall i :: 0 <= i < |threads| ==> threads[i].candidate <= m
    ensures m == value || exists i :: 0 <= i < |threads| && threads[i].candidate == m
  {
    if threads == [] then value
    else
      var rest := Largest(value, threads[..|threads| - 1]);
      Max(rest, threads[|threads| - 1].candidate)
  }

  /**
    In any run from the start the value never exceeds the largest candidate; once every
    call has returned, it is the largest of all.
  */
  lemma MaximumReached(start: State, steps: seq<Step>)
    requires Fresh(start) && CanRun(start, steps)
    ensures var end := Final(start, steps);
      && end.values != []
      && Current(start) <= Current(end) <= Largest(Current(start), start.threads)
      && (AllReturned(end) ==> Current(end) == Largest(Current(start), start.threads))
  {
    RunInv(start, start, steps);
    var end := Final(start, steps);
    if |end.values| > 1 {
      var i :| 0 <= i < |end.threads| && end.values[|end.values| - 1] == start.threads[i].candidate;
    }
  }

  /** The value never decreases between any two points of a run, so a load can only be behind. */
  lemma NeverDecreases(start: State, before: seq<Step>, after: seq<Step>)
    requires Fresh(start) && CanRun(start, before) && CanRun(Final(start, before), after)
    ensures var mid, end := Final(start, before), Final(Final(start, before), after);
      && mid.values != [] && mid.values <= end.values && Current(mid) <= Current(end)
      && (forall k :: 0 <= k < |end.values| ==> end.values[k] <= Current(end))
  {
    RunInv(start, start, before);
    RunInv(start, Final(start, before), after);
    assert Current(Final(start, before)) == Final(Final(start, before), after).values[|Final(start, before).values| - 1];
  }

  predicate AllReturned(st: State) {
    forall i :: 0 <= i < |st.threads| ==> st.threads[i].Returned?
  }

  lemma {:induction false} RunsOn(st: State, first: seq<Step>, more: seq<Step>)
    requires CanRun(st, first) && CanRun(Final(st, first), more)
    ensures CanRun(st, first + more) && Final(st, first + more) == Final(Final(st, first), more)
    decreases |first|
  {
    if first == [] {
      assert first + more == more;
    } else {
      RunsOn(Next(st, first[0]), first[1..], more);
      assert (first + more)[0] == first[0] && (first + more)[1..] == first[1..] + more;
    }
  }

  lemma OneStep(st: State, step: Step)
    requires Enabled(st, step)
    ensures CanRun(st, [step]) && Final(st, [step]) == Next(st, step)
  {
    assert [step][1..] == [];
  }

  /** A thread whose value is not the current one loads it again; then the loop is left at once. */
  lemma LeavesLoop(st: State, i: nat) returns (steps: seq<Step>)
    requires st.values != [] && i < |st.threads| && st.threads[i].Looping?
    ensures CanRun(st, steps) && Final(st, steps).values != []
    ensures Final(st, steps).threads == st.threads[i := Returned(st.threads[i].candidate)]
  {
    var t := st.threads[i];
    if t.candidate <= t.seen {
      OneStep(st, Stop(i));
      steps := [Stop(i)];
    } else if Current(st) == t.seen {
      OneStep(st, Swap(i));
      steps := [Swap(i)];
    } else {
      var miss, last := Miss(i, |st.values| - 1), if t.candidate <= Current(st) then Stop(i) else Swap(i);
      OneStep(st, miss);
      OneStep(Next(st, miss), last);
      RunsOn(st, [miss], [last]);
      steps := [miss] + [last];
    }
  }

  /** No call waits for another: from any state a thread returns if it alone takes steps. */
  lemma CanReturn(st: State, i: nat) returns (steps: seq<Step>)
    requires st.values != [] && i < |st.threads|
    ensures CanRun(st, steps) && Final(st, steps).values != []
    ensures Final(st, steps).threads == st.threads[i := Returned(st.threads[i].candidate)]
  {
    var t := st.threads[i];
    match t {
      case Returned(_) => steps := [];
      case Looping(_, _) => steps := LeavesLoop(st, i);
      case Idle(_) =>
        var load := Load(i, |st.values| - 1);
        var rest := LeavesLoop(Next(st, load), i);
        OneStep(st, load);
        RunsOn(st, [load], rest);
        steps := [load] + rest;
    }
  }

  lemma {:induction false} FinishFrom(st: State, n: nat) returns (steps: seq<Step>)
    requires st.values != [] && n <= |st.threads| && forall i :: 0 <= i < n ==> st.threads[i].Returned?
    ensures CanRun(st, steps) && AllReturned(Final(st, steps))
    decreases |st.threads| - n
  {
    steps := [];
    if n < |st.threads| {
      var first := CanReturn(st, n);
      var rest := FinishFrom(Final(st, first), n + 1);
      RunsOn(st, first, rest);
      steps := first + rest;
    }
  }

  /** Whatever has happened so far, the calls can all return, and then the value is the largest of all. */
  lemma AlwaysCompletes(start: State, steps: seq<Step>)
    requires Fresh(start) && CanRun(start, steps)
    ensures exists more ::
      && CanRun(Final(start, steps), more) && AllReturned(Final(Final(start, steps), more))
      && Final(Final(start, steps), more).values != []
      && Current(Final(Final(start, steps), more)) == Largest(Current(start), start.threads)
  {
    RunInv(start, start, steps);
    var more := FinishFrom(Final(start, steps), 0);
    RunsOn(start, steps, more);
    MaximumReached(start, steps + more);
  }
}
