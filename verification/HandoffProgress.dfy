/**
  The hand-over can always be completed: from every state a run can reach, unless the table
  is in error with no worker left to retry it, the workers can go on without any crash or
  stop until the table is ready, every row is at the destination and a restart would read
  nothing again.
*/
module HandoffProgress {
  import opened Wrappers
  import opened ApplyStream
  import opened Handoff
  import opened HandoffNoLoss
  import opened HandoffExactlyOnce
  import opened HandoffLoss
  import opened HandoffExact

  /** Only an operator can help: an error is stored and nobody will retry. */
  predicate Stuck(st: State)
    requires st.stored != []
  {
    Current(st).Errored? && !InStage(st, Failed)
  }

  /** Steps that disturb nothing; a failed store write is recorded and retried. */
  predicate Helpful(st: State, step: Step) {
    && !step.ApplyStop? && !step.Crash? && !step.SyncExit?
    && (step.SyncFail? ==> InStage(st, StoreFailed))
    && (step.SyncAfterFlush? ==> step.stores)
    && (step.SyncWhenIdle? ==> step.stores)
  }

  ghost predicate HelpfulRun(log: seq<Transaction>, st: State, steps: seq<Step>)
    requires CanRun(log, st, steps)
    decreases |steps|
  {
    steps == [] || (Helpful(st, steps[0]) && HelpfulRun(log, After(log, st, steps[0]), steps[1..]))
  }

  // What keeps the streams from getting stuck.

  ghost predicate TargetOk(log: seq<Transaction>, s: Stream, target: Lsn) {
    if s.exiting then TargetRead(log, s, target) else TargetAhead(s, target)
  }

  predicate Unblocked(s: Stream) {
    s.paused ==> s.inflight.Some?
  }

  ghost predicate Live(log: seq<Transaction>, st: State) {
    && (st.apply.Some? ==> !st.apply.value.exiting && Unblocked(st.apply.value))
    && (SyncRuns(st) ==> Unblocked(SyncStreamOf(st)) && TargetOk(log, SyncStreamOf(st), st.worker.value.phase.lsn))
  }

  lemma TargetKeepAlive(log: seq<Transaction>, s: Stream, target: Lsn, lsn: Lsn)
    requires TargetOk(log, s, target) && !s.exiting && !(Idle(s) && s.received >= target)
    ensures TargetOk(log, KeepAlive(s, lsn), target)
  {
  }

  lemma TargetFlush(log: seq<Transaction>, s: Stream, target: Lsn)
    requires TargetOk(log, s, target) && !s.acked
    ensures TargetOk(log, TryFlush(s), target)
  {
  }

  lemma TargetWrite(log: seq<Transaction>, s: Stream, target: Lsn)
    requires TargetOk(log, s, target) && CanWrite(s)
    ensures TargetOk(log, Written(s), target)
  {
  }

  lemma TargetAck(log: seq<Transaction>, s: Stream, target: Lsn, progress: Option<Lsn>)
    requires TargetOk(log, s, target) && CanAck(s) && AtMost(progress, s.flushed)
    ensures TargetOk(log, Acked(s, progress), target)
  {
  }

  lemma TargetAcked(log: seq<Transaction>, s: Stream, target: Lsn)
    requires TargetOk(log, s, target) && s.flushed < target
    ensures TargetOk(log, s.(acked := false), target)
  {
  }

  lemma SyncMessageLive(log: seq<Transaction>, st: State, lsn: Lsn)
    requires ValidLog(log) && Shape(log, st) && Live(log, st) && Enabled(log, st, SyncMessage(lsn))
    ensures Live(log, After(log, st, SyncMessage(lsn)))
  {
    SyncDeliverTarget(log, st.worker.value.phase.lsn, SyncStreamOf(st), lsn);
  }

  lemma SyncStreamLive(log: seq<Transaction>, st: State, step: Step)
    requires Shape(log, st) && Live(log, st) && Enabled(log, st, step)
    requires step.SyncStream? || step.SyncKeepAlive? || step.SyncFlush? || step.SyncWrite? || step.SyncAck?
    ensures Live(log, After(log, st, step))
  {
    if !step.SyncStream? {
      var s, target := SyncStreamOf(st), st.worker.value.phase.lsn;
      match step
      case SyncKeepAlive(lsn) => TargetKeepAlive(log, s, target, lsn);
      case SyncFlush => TargetFlush(log, s, target);
      case SyncWrite => TargetWrite(log, s, target);
      case _ => TargetAck(log, s, target, st.syncProgress);
    }
  }

  lemma SyncCompleteLive(log: seq<Transaction>, st: State, step: Step)
    requires Shape(log, st) && Live(log, st) && Enabled(log, st, step) && (step.SyncAfterFlush? || step.SyncWhenIdle?)
    ensures Live(log, After(log, st, step))
  {
    var s, target := SyncStreamOf(st), st.worker.value.phase.lsn;
    if step.SyncAfterFlush? && s.flushed < target { TargetAcked(log, s, target); }
  }

  lemma ApplyLive(log: seq<Transaction>, st: State, step: Step)
    requires Shape(log, st) && Live(log, st) && Enabled(log, st, step)
    requires step.ApplyStart? || step.ApplyStop? || step.ApplyMessage? || step.ApplyKeepAlive? || step.ApplyFlush?
          || step.ApplyWrite? || step.ApplyAck? || step.ApplyStatus?
    ensures Live(log, After(log, st, step))
  {
  }

  lemma ApplyTableLive(log: seq<Transaction>, st: State, step: Step)
    requires Shape(log, st) && Live(log, st) && Enabled(log, st, step) && (step.ApplyAfterFlush? || step.ApplyWhenIdle?)
    ensures Live(log, After(log, st, step))
  {
  }

  lemma RestLive(log: seq<Transaction>, st: State, step: Step)
    requires Shape(log, st) && Live(log, st) && Enabled(log, st, step)
    requires step.SyncDrop? || step.SyncClear? || step.SyncCopy? || step.SyncCopied? || step.SyncAwait?
          || step.SyncFail? || step.SyncRetry? || step.SyncExit? || step.Crash?
    ensures Live(log, After(log, st, step))
  {
  }

  lemma StepLive(log: seq<Transaction>, st: State, step: Step)
    requires ValidLog(log) && Shape(log, st) && Live(log, st) && Enabled(log, st, step)
    ensures Live(log, After(log, st, step))
  {
    if step.SyncMessage? {
      SyncMessageLive(log, st, step.lsn);
    } else if step.SyncStream? || step.SyncKeepAlive? || step.SyncFlush? || step.SyncWrite? || step.SyncAck? {
      SyncStreamLive(log, st, step);
    } else if step.SyncAfterFlush? || step.SyncWhenIdle? {
      SyncCompleteLive(log, st, step);
    } else if step.ApplyStart? || step.ApplyStop? || step.ApplyMessage? || step.ApplyKeepAlive? || step.ApplyFlush?
           || step.ApplyWrite? || step.ApplyAck? || step.ApplyStatus? {
      ApplyLive(log, st, step);
    } else if step.ApplyAfterFlush? || step.ApplyWhenIdle? {
      ApplyTableLive(log, st, step);
    } else {
      RestLive(log, st, step);
    }
  }

  lemma {:induction false} RunLive(log: seq<Transaction>, st: State, steps: seq<Step>)
    requires ValidLog(log) && Inv(log, st) && Live(log, st)
    requires CanRun(log, st, steps) && MarksStoredOnly(log, st, steps)
    ensures Inv(log, Final(log, st, steps)) && Live(log, Final(log, st, steps))
    decreases |steps|
  {
    if steps != [] {
      StepInv(log, st, steps[0]);
      StepLive(log, st, steps[0]);
      RunLive(log, After(log, st, steps[0]), steps[1..]);
    }
  }

  // What is left to do.

  function MessagesFrom(log: seq<Transaction>, n: nat): nat
    decreases |log| - n
  {
    if n >= |log| then 0 else log[n].rows + 2 + MessagesFrom(log, n + 1)
  }

  /** Messages a stream has not read. */
  ghost function Unread(log: seq<Transaction>, s: Stream): nat
    requires PositionOk(log, s)
  {
    MessagesFrom(log, s.next) - s.ordinal
  }

  /** Work between reading and acknowledging. */
  function Unsettled(s: Stream): nat {
    4 * |s.batch.events|
    + (if s.inflight.Some? && s.inflight.value.written <= |s.inflight.value.batch.events|
       then |s.inflight.value.batch.events| - s.inflight.value.written + 2 else 0)
    + (if s.acked then 1 else 0)
  }

  /** How far the table is from being ready. */
  function Distance(st: State): nat
    requires st.stored != []
  {
    if Current(st).Ready? then 0
    else if st.worker.None? then (if Current(st).SyncDone? then 1 else 10)
    else
      match st.worker.value.stage
      case StoreFailed => 12
      case Failed => 11
      case Spawned => 9
      case Dropped => 8
      case Copying => 7
      case Copied(_) => if st.worker.value.phase.DataSync? then 6 else 5
      case Waiting(_) => if st.worker.value.phase.SyncWait? then 4 else 3
      case Streaming(_, _) => 2
      case Finished => 1
      case FailedLate => 0
  }

  /** The stream that has to move next. */
  ghost function Mover(log: seq<Transaction>, st: State): Stream
    requires Shape(log, st) && st.apply.Some?
    ensures PositionOk(log, Mover(log, st))
  {
    if SyncRuns(st) then SyncStreamOf(st) else st.apply.value
  }

  /** The position that stream must have received: the catch-up target, or the hand-over position. */
  function Goal(st: State): Lsn
    requires st.stored != []
  {
    if SyncRuns(st) then st.worker.value.phase.lsn else if Current(st).SyncDone? then Current(st).lsn else 0
  }

  ghost function Behindness(log: seq<Transaction>, st: State): nat
    requires Shape(log, st) && st.apply.Some?
  {
    if Mover(log, st).received < Goal(st) then 1 else 0
  }

  /** `b` is strictly nearer to the end than `a`. */
  ghost predicate Nearer(log: seq<Transaction>, a: State, b: State)
    requires Shape(log, a) && Shape(log, b) && a.apply.Some? && b.apply.Some?
  {
    || Distance(b) < Distance(a)
    || (Distance(b) == Distance(a) &&
        var s, t := Mover(log, a), Mover(log, b);
        || Unread(log, t) < Unread(log, s)
        || (Unread(log, t) == Unread(log, s) &&
            (Unsettled(t) < Unsettled(s) || (Unsettled(t) == Unsettled(s) && Behindness(log, b) < Behindness(log, a)))))
  }

  // The step to take.

  function CommitOr0(log: seq<Transaction>, s: Stream): Lsn {
    if s.next < |log| && AtCommit(log, s) then log[s.next].endLsn else 0
  }

  function WorkerChoice(st: State, snapshot: Lsn): Step
    requires st.worker.Some?
  {
    match st.worker.value.stage
    case StoreFailed => SyncFail
    case Failed => SyncRetry
    case Spawned => SyncDrop
    case Dropped => SyncClear
    case Copying => SyncCopy(snapshot)
    case Copied(_) => if st.worker.value.phase.DataSync? then SyncCopied else SyncAwait
    case _ => SyncStream
  }

  function SyncChoice(log: seq<Transaction>, st: State): Step
    requires SyncRuns(st)
  {
    var s := SyncStreamOf(st);
    if s.acked then SyncAfterFlush(true)
    else if CanWrite(s) then SyncWrite
    else if s.inflight.Some? then SyncAck
    else if !s.exiting && IdleDone(st) then SyncWhenIdle(true)
    else if !s.exiting && s.next < |log| then SyncMessage(CommitOr0(log, s))
    else if s.batch.events != [] then SyncFlush
    else SyncKeepAlive(st.worker.value.phase.lsn)
  }

  function ApplyChoice(log: seq<Transaction>, st: State): Step
    requires st.stored != [] && st.apply.Some?
  {
    var s := st.apply.value;
    if s.acked then ApplyAfterFlush
    else if CanWrite(s) then ApplyWrite
    else if s.inflight.Some? then ApplyAck
    else if s.next < |log| then ApplyMessage(CommitOr0(log, s))
    else if s.batch.events != [] then ApplyFlush
    else if Current(st).SyncDone? && s.received < Current(st).lsn then ApplyKeepAlive(Current(st).lsn)
    else ApplyWhenIdle
  }

  /** The table is ready and the apply worker idle at the end of the log. */
  predicate Arrived(log: seq<Transaction>, st: State) {
    && st.stored != [] && Current(st).Ready?
    && st.apply.Some? && Idle(st.apply.value) && !st.apply.value.acked && st.apply.value.next == |log|
  }

  lemma DeliverNearer(log: seq<Transaction>, s: Stream, lsn: Lsn, owns: bool)
    requires PositionOk(log, s) && CanRead(log, s) && PositionOk(log, Deliver(log, s, lsn, owns))
    ensures Unread(log, Deliver(log, s, lsn, owns)) < Unread(log, s)
  {
  }

  lemma FlushNearer(s: Stream)
    requires s.batch.events != [] && s.inflight.None?
    ensures Unsettled(TryFlush(s)) < Unsettled(s)
  {
  }

  lemma WriteNearer(s: Stream)
    requires CanWrite(s)
    ensures Unsettled(Written(s)) < Unsettled(s)
  {
  }

  lemma AckNearer(s: Stream, progress: Option<Lsn>)
    requires CanAck(s)
    ensures Unsettled(Acked(s, progress)) < Unsettled(s)
  {
  }

  /** Replacing the mover by one that has read as much and has less unsettled brings the end nearer. */
  lemma SettledNearer(log: seq<Transaction>, a: State, b: State)
    requires Shape(log, a) && Shape(log, b) && a.apply.Some? && b.apply.Some?
    requires Distance(b) == Distance(a)
    requires Mover(log, b).next == Mover(log, a).next && Mover(log, b).ordinal == Mover(log, a).ordinal
    requires Unsettled(Mover(log, b)) < Unsettled(Mover(log, a))
    ensures Nearer(log, a, b)
  {
  }

  /** The worker's own steps bring the table nearer. */
  lemma WorkerNearer(log: seq<Transaction>, st: State, snapshot: Lsn)
    requires Shape(log, st) && st.worker.Some? && !Current(st).Ready?
    requires Distance(st) in {3, 5, 6, 7, 8, 9, 11, 12}
    ensures var step := WorkerChoice(st, snapshot);
      && Enabled(log, st, step) && Helpful(st, step) && !MarksUnstored(st, step)
      && After(log, st, step).stored != [] && After(log, st, step).apply == st.apply
      && Distance(After(log, st, step)) < Distance(st) && !Stuck(After(log, st, step))
  {
  }

  lemma SyncEnabled(log: seq<Transaction>, st: State)
    requires Shape(log, st) && Live(log, st) && SyncRuns(st)
    requires SyncStreamOf(st).inflight.Some? ==> SyncStreamOf(st).inflight.value.written <= |SyncStreamOf(st).inflight.value.batch.events|
    ensures var step := SyncChoice(log, st); Enabled(log, st, step) && Helpful(st, step) && !MarksUnstored(st, step)
  {
  }

  lemma SyncMessageNearer(log: seq<Transaction>, st: State, lsn: Lsn)
    requires Shape(log, st) && st.apply.Some? && Enabled(log, st, SyncMessage(lsn)) && Shape(log, After(log, st, SyncMessage(lsn)))
    ensures Nearer(log, st, After(log, st, SyncMessage(lsn)))
  {
    DeliverNearer(log, SyncStreamOf(st), lsn, true);
  }

  lemma SyncSettles(log: seq<Transaction>, st: State, step: Step)
    requires Shape(log, st) && st.apply.Some? && Enabled(log, st, step) && Shape(log, After(log, st, step))
    requires step.SyncWrite? || step.SyncAck? || (step.SyncFlush? && SyncStreamOf(st).batch.events != [] && SyncStreamOf(st).inflight.None?)
    ensures Nearer(log, st, After(log, st, step))
  {
    var s := SyncStreamOf(st);
    match step {
      case SyncFlush => FlushNearer(s);
      case SyncWrite => WriteNearer(s);
      case _ => AckNearer(s, st.syncProgress);
    }
    SettledNearer(log, st, After(log, st, step));
  }

  lemma SyncCompletes(log: seq<Transaction>, st: State, step: Step)
    requires Shape(log, st) && st.apply.Some? && Enabled(log, st, step) && Shape(log, After(log, st, step))
    requires step == SyncAfterFlush(true) || step == SyncWhenIdle(true)
    ensures Nearer(log, st, After(log, st, step))
  {
  }

  lemma SyncKeepAliveNearer(log: seq<Transaction>, st: State)
    requires Shape(log, st) && st.apply.Some? && SyncRuns(st) && SyncStreamOf(st).received < st.worker.value.phase.lsn
    requires Enabled(log, st, SyncKeepAlive(st.worker.value.phase.lsn))
    requires Shape(log, After(log, st, SyncKeepAlive(st.worker.value.phase.lsn)))
    ensures Nearer(log, st, After(log, st, SyncKeepAlive(st.worker.value.phase.lsn)))
  {
  }

  lemma SyncChoiceNearer(log: seq<Transaction>, st: State)
    requires Shape(log, st) && Live(log, st) && st.apply.Some? && SyncRuns(st)
    requires Enabled(log, st, SyncChoice(log, st)) && Shape(log, After(log, st, SyncChoice(log, st)))
    ensures Nearer(log, st, After(log, st, SyncChoice(log, st)))
  {
    var step := SyncChoice(log, st);
    if step.SyncMessage? {
      SyncMessageNearer(log, st, step.lsn);
    } else if step.SyncKeepAlive? {
      SyncKeepAliveNearer(log, st);
    } else if step.SyncAfterFlush? || step.SyncWhenIdle? {
      SyncCompletes(log, st, step);
    } else {
      SyncSettles(log, st, step);
    }
  }

  lemma SyncStaysFit(log: seq<Transaction>, st: State)
    requires Shape(log, st) && SyncRuns(st) && Enabled(log, st, SyncChoice(log, st))
    ensures var st' := After(log, st, SyncChoice(log, st)); st'.apply == st.apply && st'.stored != [] && !Stuck(st')
  {
  }

  lemma SyncNearer(log: seq<Transaction>, st: State)
    requires ValidLog(log) && Inv(log, st) && Live(log, st) && st.apply.Some? && SyncRuns(st)
    ensures var step := SyncChoice(log, st);
      && Enabled(log, st, step) && Helpful(st, step) && !MarksUnstored(st, step)
      && Inv(log, After(log, st, step)) && After(log, st, step).apply == st.apply
      && Nearer(log, st, After(log, st, step)) && !Stuck(After(log, st, step))
  {
    SyncEnabled(log, st);
    StepInv(log, st, SyncChoice(log, st));
    SyncStaysFit(log, st);
    SyncChoiceNearer(log, st);
  }

  lemma ApplyEnabled(log: seq<Transaction>, st: State)
    requires Shape(log, st) && Live(log, st) && ApplyRuns(st) && !InStage(st, StoreFailed)
    requires st.apply.value.inflight.Some? ==> st.apply.value.inflight.value.written <= |st.apply.value.inflight.value.batch.events|
    ensures var step := ApplyChoice(log, st); Enabled(log, st, step) && Helpful(st, step) && !MarksUnstored(st, step)
  {
  }

  lemma ApplyMessageNearer(log: seq<Transaction>, st: State, lsn: Lsn)
    requires Shape(log, st) && Distance(st) in {0, 1, 4, 10} && Enabled(log, st, ApplyMessage(lsn))
    requires Shape(log, After(log, st, ApplyMessage(lsn)))
    ensures Nearer(log, st, After(log, st, ApplyMessage(lsn)))
  {
    var s := st.apply.value;
    DeliverNearer(log, s, lsn, ApplyOwns(Visible(st), log[s.next].commitLsn));
  }

  lemma ApplySettles(log: seq<Transaction>, st: State, step: Step)
    requires Shape(log, st) && Distance(st) in {0, 1, 4, 10} && Enabled(log, st, step) && Shape(log, After(log, st, step))
    requires step.ApplyWrite? || step.ApplyAck? || (step.ApplyFlush? && st.apply.value.batch.events != [] && st.apply.value.inflight.None?)
    ensures Nearer(log, st, After(log, st, step))
  {
    var s := st.apply.value;
    match step {
      case ApplyFlush => FlushNearer(s);
      case ApplyWrite => WriteNearer(s);
      case _ => AckNearer(s, st.progress);
    }
    SettledNearer(log, st, After(log, st, step));
  }

  lemma ApplyAfterFlushNearer(log: seq<Transaction>, st: State)
    requires Shape(log, st) && Distance(st) in {0, 1, 4, 10} && Enabled(log, st, ApplyAfterFlush)
    requires Shape(log, After(log, st, ApplyAfterFlush))
    ensures Nearer(log, st, After(log, st, ApplyAfterFlush))
  {
  }

  lemma ApplyKeepAliveNearer(log: seq<Transaction>, st: State)
    requires Shape(log, st) && Distance(st) == 1 && Current(st).SyncDone?
    requires st.apply.Some? && st.apply.value.received < Current(st).lsn && Enabled(log, st, ApplyKeepAlive(Current(st).lsn))
    requires Shape(log, After(log, st, ApplyKeepAlive(Current(st).lsn)))
    ensures Nearer(log, st, After(log, st, ApplyKeepAlive(Current(st).lsn)))
  {
  }

  lemma ApplyIdleNearer(log: seq<Transaction>, st: State)
    requires Shape(log, st) && Distance(st) in {1, 4, 10} && !Stuck(st) && Enabled(log, st, ApplyWhenIdle)
    requires Current(st).SyncDone? ==> st.apply.value.received >= Current(st).lsn
    requires Shape(log, After(log, st, ApplyWhenIdle))
    ensures Nearer(log, st, After(log, st, ApplyWhenIdle))
  {
  }

  lemma ApplyChoiceNearer(log: seq<Transaction>, st: State)
    requires Shape(log, st) && Distance(st) in {0, 1, 4, 10} && ApplyRuns(st) && !Stuck(st) && !Arrived(log, st)
    requires Enabled(log, st, ApplyChoice(log, st)) && Shape(log, After(log, st, ApplyChoice(log, st)))
    ensures Nearer(log, st, After(log, st, ApplyChoice(log, st)))
  {
    var step := ApplyChoice(log, st);
    if step.ApplyMessage? {
      ApplyMessageNearer(log, st, step.lsn);
    } else if step.ApplyWhenIdle? {
      ApplyIdleNearer(log, st);
    } else if step.ApplyAfterFlush? {
      ApplyAfterFlushNearer(log, st);
    } else if step.ApplyKeepAlive? {
      ApplyKeepAliveNearer(log, st);
    } else {
      ApplySettles(log, st, step);
    }
  }

  lemma ApplyStaysFit(log: seq<Transaction>, st: State)
    requires Shape(log, st) && ApplyRuns(st) && !Stuck(st) && Enabled(log, st, ApplyChoice(log, st))
    ensures var st' := After(log, st, ApplyChoice(log, st)); st'.apply.Some? && st'.stored != [] && !Stuck(st')
  {
  }

  lemma ApplyNearer(log: seq<Transaction>, st: State)
    requires ValidLog(log) && Inv(log, st) && Live(log, st) && ApplyRuns(st) && !InStage(st, StoreFailed)
    requires Distance(st) in {0, 1, 4, 10} && !Stuck(st) && !Arrived(log, st)
    ensures var step := ApplyChoice(log, st);
      && Enabled(log, st, step) && Helpful(st, step) && !MarksUnstored(st, step)
      && Inv(log, After(log, st, step)) && After(log, st, step).apply.Some?
      && Nearer(log, st, After(log, st, step)) && !Stuck(After(log, st, step))
  {
    ApplyEnabled(log, st);
    StepInv(log, st, ApplyChoice(log, st));
    ApplyStaysFit(log, st);
    ApplyChoiceNearer(log, st);
  }

  /** The run disturbs nothing, marks no unstored phase, and every copy in it is taken at `snapshot`. */
  ghost predicate Smooth(log: seq<Transaction>, st: State, steps: seq<Step>, snapshot: Lsn) {
    && CanRun(log, st, steps) && HelpfulRun(log, st, steps) && MarksStoredOnly(log, st, steps)
    && forall step :: step in steps && step.SyncCopy? ==> step.lsn == snapshot
  }

  lemma SmoothStep(log: seq<Transaction>, st: State, step: Step, rest: seq<Step>, snapshot: Lsn)
    requires Enabled(log, st, step) && Helpful(st, step) && !MarksUnstored(st, step) && (step.SyncCopy? ==> step.lsn == snapshot)
    requires Smooth(log, After(log, st, step), rest, snapshot)
    ensures Smooth(log, st, [step] + rest, snapshot)
    ensures Final(log, st, [step] + rest) == Final(log, After(log, st, step), rest)
  {
    assert ([step] + rest)[1..] == rest;
  }

  /** The next step from a state with a running apply worker. */
  lemma NextStep(log: seq<Transaction>, st: State, snapshot: Lsn) returns (step: Step)
    requires ValidLog(log) && Inv(log, st) && Live(log, st) && st.apply.Some? && !Stuck(st) && !Arrived(log, st)
    ensures Enabled(log, st, step) && Helpful(st, step) && !MarksUnstored(st, step)
    ensures step.SyncCopy? ==> step.lsn == snapshot
    ensures var st' := After(log, st, step);
      Inv(log, st') && Live(log, st') && st'.apply.Some? && !Stuck(st') && Nearer(log, st, st')
  {
    if SyncRuns(st) {
      step := SyncChoice(log, st);
      SyncNearer(log, st);
    } else if Distance(st) in {3, 5, 6, 7, 8, 9, 11, 12} {
      step := WorkerChoice(st, snapshot);
      WorkerNearer(log, st, snapshot);
      StepInv(log, st, step);
    } else {
      step := ApplyChoice(log, st);
      ApplyNearer(log, st);
    }
    StepLive(log, st, step);
  }

  lemma {:induction false} GoOn(log: seq<Transaction>, st: State, snapshot: Lsn) returns (steps: seq<Step>)
    requires ValidLog(log) && Inv(log, st) && Live(log, st) && st.apply.Some? && !Stuck(st)
    ensures Smooth(log, st, steps, snapshot)
    ensures Inv(log, Final(log, st, steps)) && Arrived(log, Final(log, st, steps))
    decreases Distance(st), Unread(log, Mover(log, st)), Unsettled(Mover(log, st)), Behindness(log, st)
  {
    if Arrived(log, st) {
      steps := [];
    } else {
      var step := NextStep(log, st, snapshot);
      var rest := GoOn(log, After(log, st, step), snapshot);
      SmoothStep(log, st, step, rest, snapshot);
      steps := [step] + rest;
    }
  }

  /** Ready, every row delivered, and nothing left to read after a restart. */
  ghost predicate HandedOver(log: seq<Transaction>, st: State) {
    && st.stored != [] && Current(st).Ready? && Complete(log, st.dest)
    && forall i :: 0 <= i < |log| ==> log[i].commitLsn < ResumeAt(st)
  }

  lemma ArrivedHandsOver(log: seq<Transaction>, st: State)
    requires Inv(log, st) && Arrived(log, st)
    ensures Enabled(log, st, ApplyStatus) && HandedOver(log, After(log, st, ApplyStatus))
  {
  }

  lemma {:induction false} SmoothAppend(log: seq<Transaction>, st: State, steps: seq<Step>, step: Step, snapshot: Lsn)
    requires Smooth(log, st, steps, snapshot) && Enabled(log, Final(log, st, steps), step) && step.ApplyStatus?
    ensures Smooth(log, st, steps + [step], snapshot)
    ensures Final(log, st, steps + [step]) == After(log, Final(log, st, steps), step)
    decreases |steps|
  {
    if steps == [] {
      assert [step][1..] == [] && steps + [step] == [step];
    } else {
      var st' := After(log, st, steps[0]);
      assert Smooth(log, st', steps[1..], snapshot);
      SmoothAppend(log, st', steps[1..], step, snapshot);
      assert steps + [step] == [steps[0]] + (steps[1..] + [step]);
      SmoothStep(log, st, steps[0], steps[1..] + [step], snapshot);
    }
  }

  lemma Finish(log: seq<Transaction>, st: State, snapshot: Lsn) returns (steps: seq<Step>)
    requires ValidLog(log) && Inv(log, st) && Live(log, st) && st.apply.Some? && !Stuck(st)
    ensures Smooth(log, st, steps, snapshot) && HandedOver(log, Final(log, st, steps))
  {
    var run := GoOn(log, st, snapshot);
    ArrivedHandsOver(log, Final(log, st, run));
    SmoothAppend(log, st, run, ApplyStatus, snapshot);
    steps := run + [ApplyStatus];
  }

  lemma FinishFromStop(log: seq<Transaction>, st: State, snapshot: Lsn) returns (steps: seq<Step>)
    requires ValidLog(log) && Inv(log, st) && Live(log, st) && !Stuck(st)
    ensures Smooth(log, st, steps, snapshot) && HandedOver(log, Final(log, st, steps))
  {
    if st.apply.Some? {
      steps := Finish(log, st, snapshot);
    } else {
      StepInv(log, st, ApplyStart);
      StepLive(log, st, ApplyStart);
      var rest := Finish(log, After(log, st, ApplyStart), snapshot);
      SmoothStep(log, st, ApplyStart, rest, snapshot);
      steps := [ApplyStart] + rest;
    }
  }

  predicate NoWorkerSteps(st: State) {
    st.worker.None? || InStage(st, FailedLate)
  }

  lemma StuckWorker(log: seq<Transaction>, st: State)
    requires Shape(log, st) && Stuck(st)
    ensures NoWorkerSteps(st)
  {
  }

  lemma StuckMessage(log: seq<Transaction>, st: State, lsn: Lsn)
    requires st.stored != [] && NoWorkerSteps(st) && Stuck(st) && Enabled(log, st, ApplyMessage(lsn))
    ensures After(log, st, ApplyMessage(lsn)).stored == st.stored && Stuck(After(log, st, ApplyMessage(lsn)))
  {
  }

  lemma StuckOther(log: seq<Transaction>, st: State, step: Step)
    requires st.stored != [] && NoWorkerSteps(st) && Stuck(st) && Enabled(log, st, step) && !step.ApplyMessage?
    ensures After(log, st, step).stored == st.stored && Stuck(After(log, st, step))
  {
  }

  lemma StuckStep(log: seq<Transaction>, st: State, step: Step)
    requires Shape(log, st) && Stuck(st) && Enabled(log, st, step)
    ensures After(log, st, step).stored == st.stored && Stuck(After(log, st, step))
  {
    StuckWorker(log, st);
    if step.ApplyMessage? { StuckMessage(log, st, step.lsn); } else { StuckOther(log, st, step); }
  }

  lemma {:induction false} StuckForGood(log: seq<Transaction>, st: State, steps: seq<Step>)
    requires ValidLog(log) && Inv(log, st) && Stuck(st) && CanRun(log, st, steps)
    ensures Final(log, st, steps).stored == st.stored
    decreases |steps|
  {
    if steps != [] {
      StuckStep(log, st, steps[0]);
      StepInv(log, st, steps[0]);
      StuckForGood(log, After(log, st, steps[0]), steps[1..]);
    }
  }

  /**
    From every state of every run that marks no unstored phase, whatever failed before it and
    whatever snapshot a new copy gets: the workers can finish the hand-over on their own
    exactly if the table is not in error without a worker that retries it.
  */
  lemma CanFinishIff(log: seq<Transaction>, st: State, steps: seq<Step>, snapshot: Lsn)
    requires ValidLog(log) && Initial(st) && CanRun(log, st, steps) && MarksStoredOnly(log, st, steps)
    ensures var now := Final(log, st, steps);
      && now.stored != []
      && ((exists more :: Smooth(log, now, more, snapshot) && HandedOver(log, Final(log, now, more))) <==> !Stuck(now))
  {
    InitialInv(log, st);
    RunLive(log, st, steps);
    var now := Final(log, st, steps);
    if Stuck(now) {
      forall more | Smooth(log, now, more, snapshot) ensures !HandedOver(log, Final(log, now, more)) {
        StuckForGood(log, now, more);
      }
    } else {
      var more := FinishFromStop(log, now, snapshot);
      assert Smooth(log, now, more, snapshot) && HandedOver(log, Final(log, now, more));
    }
  }

  /** A stored `SyncDone` without a worker becomes `Ready` exactly once the apply worker has flushed, or idles, past it. */
  lemma MarksReadyIff(log: seq<Transaction>, st: State, step: Step)
    requires Inv(log, st) && st.worker.None? && Current(st).SyncDone? && Enabled(log, st, step)
    requires step.ApplyAfterFlush? || step.ApplyWhenIdle?
    ensures var reached := if step.ApplyAfterFlush? then st.apply.value.flushed else st.apply.value.received;
      var st' := After(log, st, step);
      st'.stored != [] && Current(st') == if reached >= Current(st).lsn then Ready else Current(st)
  {
  }

  /** An acknowledged commit is never read again: the apply worker resumes at or past its end. */
  lemma AcknowledgedIsDurable(log: seq<Transaction>, st: State)
    requires Inv(log, st) && Enabled(log, st, ApplyAck) && st.apply.value.inflight.value.batch.commitEnd.Some?
    ensures var st' := After(log, st, ApplyAck);
      st.apply.value.inflight.value.batch.commitEnd.value <= ResumeAt(st') && ResumeAt(st) <= ResumeAt(st')
  {
  }
}
