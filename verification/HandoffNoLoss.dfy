/**
  No row is lost across the hand-over, whatever crashes, retries and failed store
  writes a run contains, as long as the apply worker never marks a table ready on a
  `SyncDone` that was not stored.
*/
module HandoffNoLoss {
  import opened Wrappers
  import opened ApplyStream
  import opened Handoff

  ghost predicate AtMost(lsn: Option<Lsn>, bound: Lsn) {
    lsn.Some? ==> lsn.value <= bound
  }

  /** The stored history: in-memory phases never reach it. */
  ghost predicate HistoryOk(st: State) {
    && st.stored != []
    && !Current(st).SyncWait? && !Current(st).Catchup?
  }

  ghost predicate ApplyShape(log: seq<Transaction>, st: State) {
    st.apply.Some? ==>
      && PositionOk(log, st.apply.value)
      && AtMost(st.progress, st.apply.value.flushed)
      && st.confirmed <= st.apply.value.received
  }

  /** The apply worker has not read past the catch-up target and will not resume past it. */
  ghost predicate Behind(st: State, target: Lsn) {
    && AtMost(st.progress, target)
    && st.confirmed <= target
    && (st.apply.Some? ==> st.apply.value.received <= target && st.apply.value.ordinal == 0)
  }

  /** What the table-sync stream has read since the snapshot is written or about to be. */
  ghost predicate SyncCovers(log: seq<Transaction>, st: State, snapshot: Lsn, s: Stream) {
    forall e :: IsRow(log, e) && snapshot <= log[e.txn].commitLsn && Delivered(s, e)
      ==> Covered(log, st.dest, e) || Pending(s, e)
  }

  /** How the worker's stage, its phase, the stored phase and the destination go together. */
  ghost predicate WorkerShape(log: seq<Transaction>, st: State, w: Worker)
    requires st.stored != []
  {
    match w.stage
    case Spawned => NeedsCopy(w.phase) && Current(st) == w.phase
    case Dropped => NeedsCopy(w.phase) && Current(st) == w.phase
    case Copying => w.phase == DataSync && Current(st) == DataSync && st.syncProgress.None?
    case Copied(snapshot) =>
      && (w.phase.DataSync? || w.phase.FinishedCopy?) && Current(st) == w.phase
      && st.dest.snapshot == Some(snapshot) && st.syncProgress.None?
    case Waiting(snapshot) =>
      && (w.phase == SyncWait(snapshot) || (w.phase.Catchup? && snapshot <= w.phase.lsn && Behind(st, w.phase.lsn)))
      && Current(st) == FinishedCopy
      && st.dest.snapshot == Some(snapshot) && st.syncProgress.None?
    case Streaming(snapshot, s) =>
      && w.phase.Catchup? && snapshot <= w.phase.lsn && Behind(st, w.phase.lsn)
      && Current(st) == FinishedCopy && st.dest.snapshot == Some(snapshot)
      && PositionOk(log, s) && AtMost(st.syncProgress, s.flushed)
    case Finished => w.phase.SyncDone? && (Current(st) == w.phase || Current(st).Ready?)
    case StoreFailed => w.phase.SyncDone? && Current(st) == FinishedCopy
    case Failed =>
      w.phase.Errored? && Current(st).Errored? && |st.stored| >= 2 && NeedsCopy(st.stored[|st.stored| - 2])
    case FailedLate => w.phase.Errored? && Current(st).Errored?
  }

  ghost predicate Shape(log: seq<Transaction>, st: State) {
    && HistoryOk(st)
    && ApplyShape(log, st)
    && (st.worker.Some? ==> WorkerShape(log, st, st.worker.value))
  }

  /** Rows the apply worker answers for: before the hand-over, before its resume position, or read. */
  ghost predicate Obliged(log: seq<Transaction>, st: State, p: Phase, e: Event)
    requires e.txn < |log|
  {
    || (p.SyncDone? && log[e.txn].commitLsn < p.lsn)
    || log[e.txn].commitLsn < ResumeAt(st)
  }

  ghost predicate ApplyCovers(log: seq<Transaction>, st: State, p: Phase) {
    && (forall e :: IsRow(log, e) && Obliged(log, st, p, e) ==> Covered(log, st.dest, e))
    && (st.apply.Some? ==>
          forall e :: IsRow(log, e) && Delivered(st.apply.value, e)
            ==> Covered(log, st.dest, e) || Pending(st.apply.value, e))
  }

  ghost predicate Inv(log: seq<Transaction>, st: State) {
    && Shape(log, st)
    && (st.apply.Some? ==> StreamOk(log, st.apply.value))
    && (st.worker.Some? && st.worker.value.stage.Streaming? ==>
          && StreamOk(log, st.worker.value.stage.stream)
          && SyncCovers(log, st, st.worker.value.stage.snapshot, st.worker.value.stage.stream))
    && (Handed(Visible(st)) ==> ApplyCovers(log, st, Visible(st)))
  }

  lemma InitialInv(log: seq<Transaction>, st: State)
    requires Initial(st)
    ensures Inv(log, st)
  {
  }

  lemma CoveredAfterWrite(log: seq<Transaction>, dest: Destination, w: Event)
    ensures WriteTo(log, dest, w).snapshot == dest.snapshot
    ensures forall e :: IsRow(log, e) && (Covered(log, dest, e) || e == w) ==> Covered(log, WriteTo(log, dest, w), e)
  {
  }

  /** Processing the syncing table keeps the invariant, given a position the apply worker has read to. */
  lemma SyncTableInv(log: seq<Transaction>, st: State, lsn: Lsn, mayCatchup: bool, mayReady: bool)
    requires Inv(log, st) && st.apply.Some? && !Blocked(st)
    requires mayCatchup ==> st.apply.value.received <= lsn && st.apply.value.ordinal == 0
    requires mayReady && st.worker.Some? && st.worker.value.stage.StoreFailed? ==> lsn < st.worker.value.phase.lsn
    ensures Inv(log, SyncTable(st, lsn, mayCatchup, mayReady))
  {
  }

  /** Advancing the apply stream: buffered rows stay buffered, newly read rows are answered for. */
  lemma ApplyReplaceInv(log: seq<Transaction>, st: State, s': Stream)
    requires Inv(log, st) && ApplyRuns(st)
    requires StreamOk(log, s')
    requires s'.flushed == st.apply.value.flushed && s'.received >= st.apply.value.received
    requires forall e :: Pending(st.apply.value, e) ==> Pending(s', e)
    requires Handed(Visible(st)) ==>
      forall e :: IsRow(log, e) && Delivered(s', e) && !Delivered(st.apply.value, e)
        ==> Covered(log, st.dest, e) || Pending(s', e)
    ensures Inv(log, st.(apply := Some(s')))
  {
  }

  lemma ApplyMessageInv(log: seq<Transaction>, st: State, lsn: Lsn)
    requires ValidLog(log) && Inv(log, st) && Enabled(log, st, ApplyMessage(lsn))
    ensures Inv(log, After(log, st, ApplyMessage(lsn)))
  {
    var s := st.apply.value;
    var p := Visible(st);
    var owns := ApplyOwns(p, log[s.next].commitLsn);
    var s' := Deliver(log, s, lsn, owns);
    DeliverOk(log, s, lsn, owns);
    if Handed(p) {
      forall e | IsRow(log, e) && Delivered(s', e) && !Delivered(s, e)
        ensures Covered(log, st.dest, e) || Pending(s', e)
      {
        assert e == Event(s.next, s.ordinal);
        if !owns { assert Obliged(log, st, p, e); }
      }
    }
    ApplyReplaceInv(log, st, s');
    if AtCommit(log, s) {
      SyncTableInv(log, st.(apply := Some(s')), log[s.next].endLsn, true, false);
    }
  }

  lemma ApplyStartInv(log: seq<Transaction>, st: State)
    requires ValidLog(log) && Inv(log, st) && Enabled(log, st, ApplyStart)
    ensures Inv(log, After(log, st, ApplyStart))
  {
    StartAtOk(log, ResumeAt(st));
    if Handed(Visible(st)) { ApplyStartCovers(log, st); }
  }

  /** What a restarted apply worker will not read again is at the destination. */
  lemma ApplyStartCovers(log: seq<Transaction>, st: State)
    requires Inv(log, st) && Enabled(log, st, ApplyStart) && Handed(Visible(st))
    ensures ApplyCovers(log, After(log, st, ApplyStart), Visible(st))
  {
  }

  lemma ApplyKeepAliveInv(log: seq<Transaction>, st: State, lsn: Lsn)
    requires ValidLog(log) && Inv(log, st) && Enabled(log, st, ApplyKeepAlive(lsn))
    ensures Inv(log, After(log, st, ApplyKeepAlive(lsn)))
  {
    var s := st.apply.value;
    KeepAliveOk(log, s, lsn);
    ApplyReplaceInv(log, st, KeepAlive(s, lsn));
  }

  lemma ApplyFlushInv(log: seq<Transaction>, st: State)
    requires ValidLog(log) && Inv(log, st) && Enabled(log, st, ApplyFlush)
    ensures Inv(log, After(log, st, ApplyFlush))
  {
    TryFlushOk(log, st.apply.value);
    ApplyReplaceInv(log, st, TryFlush(st.apply.value));
  }

  lemma ApplyAfterFlushInv(log: seq<Transaction>, st: State)
    requires ValidLog(log) && Inv(log, st) && Enabled(log, st, ApplyAfterFlush)
    requires !MarksUnstored(st, ApplyAfterFlush)
    ensures Inv(log, After(log, st, ApplyAfterFlush))
  {
    var s := st.apply.value;
    var st' := st.(apply := Some(s.(acked := false)));
    FlagsOk(log, s, false, s.exiting);
    ApplyReplaceInv(log, st, s.(acked := false));
    SyncTableInv(log, st', s.flushed, false, true);
  }

  lemma ApplyWhenIdleInv(log: seq<Transaction>, st: State)
    requires ValidLog(log) && Inv(log, st) && Enabled(log, st, ApplyWhenIdle)
    requires !MarksUnstored(st, ApplyWhenIdle)
    ensures Inv(log, After(log, st, ApplyWhenIdle))
  {
    SyncTableInv(log, st, EffectiveFlush(st.apply.value), true, true);
  }

  lemma ApplyWriteInv(log: seq<Transaction>, st: State)
    requires ValidLog(log) && Inv(log, st) && Enabled(log, st, ApplyWrite)
    ensures Inv(log, After(log, st, ApplyWrite))
  {
    WrittenOk(log, st.apply.value);
    CoveredAfterWrite(log, st.dest, NextWrite(st.apply.value));
  }

  lemma ApplyAckInv(log: seq<Transaction>, st: State)
    requires ValidLog(log) && Inv(log, st) && Enabled(log, st, ApplyAck)
    ensures Inv(log, After(log, st, ApplyAck))
  {
    AckedOk(log, st.apply.value, st.progress);
    if Handed(Visible(st)) { ApplyAckCovers(log, st); }
  }

  /** Durable progress moves only past rows that are written. */
  lemma ApplyAckCovers(log: seq<Transaction>, st: State)
    requires ValidLog(log) && Inv(log, st) && Enabled(log, st, ApplyAck) && Handed(Visible(st))
    ensures ApplyCovers(log, After(log, st, ApplyAck), Visible(st))
  {
    var s, st' := st.apply.value, After(log, st, ApplyAck);
    AckedOk(log, s, st.progress);
    forall e | IsRow(log, e) && log[e.txn].commitLsn < ResumeAt(st')
      ensures Covered(log, st.dest, e)
    {
      if log[e.txn].commitLsn >= ResumeAt(st) {
        assert log[e.txn].commitLsn < st'.apply.value.flushed;
        assert e.txn < s.next;
      }
    }
  }

  lemma ApplyStatusInv(log: seq<Transaction>, st: State)
    requires ValidLog(log) && Inv(log, st) && Enabled(log, st, ApplyStatus)
    ensures Inv(log, After(log, st, ApplyStatus))
  {
  }

  lemma CopyStepInv(log: seq<Transaction>, st: State, step: Step)
    requires Inv(log, st) && Enabled(log, st, step)
    requires step.SyncDrop? || step.SyncClear? || step.SyncCopy? || step.SyncCopied? || step.SyncAwait?
    ensures Inv(log, After(log, st, step))
  {
  }

  lemma StopInv(log: seq<Transaction>, st: State, step: Step)
    requires Inv(log, st) && Enabled(log, st, step) && (step.ApplyStop? || step.SyncExit? || step.Crash?)
    ensures Inv(log, After(log, st, step))
  {
    var st' := After(log, st, step);
    assert Handed(Visible(st')) ==> ApplyCovers(log, st', Visible(st'));
  }

  lemma SyncFailInv(log: seq<Transaction>, st: State)
    requires Inv(log, st) && Enabled(log, st, SyncFail)
    ensures Inv(log, After(log, st, SyncFail))
  {
  }

  lemma SyncRetryInv(log: seq<Transaction>, st: State)
    requires Inv(log, st) && Enabled(log, st, SyncRetry)
    ensures Inv(log, After(log, st, SyncRetry))
  {
  }

  lemma SyncStreamInv(log: seq<Transaction>, st: State)
    requires ValidLog(log) && Inv(log, st) && Enabled(log, st, SyncStream)
    ensures Inv(log, After(log, st, SyncStream))
  {
    StartAtOk(log, st.worker.value.stage.snapshot);
  }

  /** Replacing the sync stream by one that keeps its pending rows and answers for new ones. */
  lemma SyncReplaceInv(log: seq<Transaction>, st: State, s': Stream)
    requires Inv(log, st) && SyncRuns(st)
    requires StreamOk(log, s') && s'.flushed == SyncStreamOf(st).flushed
    requires forall e :: Pending(SyncStreamOf(st), e) ==> Pending(s', e)
    requires forall e :: IsRow(log, e) && Delivered(s', e) && !Delivered(SyncStreamOf(st), e) ==> Pending(s', e)
    ensures Inv(log, SetSync(st, s'))
  {
  }

  lemma SyncMessageInv(log: seq<Transaction>, st: State, lsn: Lsn)
    requires ValidLog(log) && Inv(log, st) && Enabled(log, st, SyncMessage(lsn))
    ensures Inv(log, After(log, st, SyncMessage(lsn)))
  {
    var s := SyncStreamOf(st);
    var s' := Deliver(log, s, lsn, true);
    DeliverOk(log, s, lsn, true);
    forall e | IsRow(log, e) && Delivered(s', e) && !Delivered(s, e)
      ensures Pending(s', e)
    {
      assert e == Event(s.next, s.ordinal);
    }
    SyncReplaceInv(log, st, s');
    var t := SyncStreamOf(After(log, st, SyncMessage(lsn)));
    FlagsOk(log, s', t.acked, t.exiting);
    SyncReplaceInv(log, SetSync(st, s'), t);
  }

  lemma SyncPipelineInv(log: seq<Transaction>, st: State, step: Step)
    requires ValidLog(log) && Inv(log, st) && Enabled(log, st, step)
    requires step.SyncKeepAlive? || step.SyncFlush?
    ensures Inv(log, After(log, st, step))
  {
    var s := SyncStreamOf(st);
    match step
    case SyncKeepAlive(lsn) =>
      KeepAliveOk(log, s, lsn);
      SyncReplaceInv(log, st, KeepAlive(s, lsn));
    case SyncFlush =>
      TryFlushOk(log, s);
      SyncReplaceInv(log, st, TryFlush(s));
  }

  lemma SyncWriteInv(log: seq<Transaction>, st: State)
    requires Inv(log, st) && Enabled(log, st, SyncWrite)
    ensures Inv(log, After(log, st, SyncWrite))
  {
    WrittenOk(log, SyncStreamOf(st));
    CoveredAfterWrite(log, st.dest, NextWrite(SyncStreamOf(st)));
  }

  lemma SyncAckInv(log: seq<Transaction>, st: State)
    requires Inv(log, st) && Enabled(log, st, SyncAck)
    ensures Inv(log, After(log, st, SyncAck))
  {
    AckedOk(log, SyncStreamOf(st), st.syncProgress);
  }

  /** Reaching the target hands over: everything before the hand-over position is written. */
  lemma CompleteCatchupInv(log: seq<Transaction>, st: State, lsn: Lsn, stores: bool)
    requires ValidLog(log) && Inv(log, st) && SyncRuns(st)
    requires lsn == SyncStreamOf(st).flushed || (Idle(SyncStreamOf(st)) && lsn == SyncStreamOf(st).received)
    ensures Inv(log, CompleteCatchup(st, lsn, stores))
  {
    var w := st.worker.value;
    var s := SyncStreamOf(st);
    if lsn >= w.phase.lsn {
      forall e | IsRow(log, e) && log[e.txn].commitLsn < lsn
        ensures Covered(log, st.dest, e)
      {
        if log[e.txn].commitLsn >= w.stage.snapshot {
          assert Delivered(s, e);
          assert !Pending(s, e);
        }
      }
      var st' := CompleteCatchup(st, lsn, stores);
      if st.apply.Some? {
        forall e | IsRow(log, e) && Delivered(st.apply.value, e)
          ensures Covered(log, st.dest, e)
        {
          assert log[e.txn].commitLsn < st.apply.value.received;
        }
      }
      assert ApplyCovers(log, st', Visible(st'));
    }
  }

  lemma SyncCompleteInv(log: seq<Transaction>, st: State, step: Step)
    requires ValidLog(log) && Inv(log, st) && Enabled(log, st, step)
    requires step.SyncAfterFlush? || step.SyncWhenIdle?
    ensures Inv(log, After(log, st, step))
  {
    match step
    case SyncAfterFlush(stores) =>
      var s := SyncStreamOf(st);
      FlagsOk(log, s, false, s.exiting);
      SyncReplaceInv(log, st, s.(acked := false));
      CompleteCatchupInv(log, SetSync(st, s.(acked := false)), s.flushed, stores);
    case SyncWhenIdle(stores) =>
      CompleteCatchupInv(log, st, SyncStreamOf(st).received, stores);
  }

  lemma ApplySideInv(log: seq<Transaction>, st: State, step: Step)
    requires ValidLog(log) && Inv(log, st) && Enabled(log, st, step) && !MarksUnstored(st, step)
    requires step.ApplyStart? || step.ApplyMessage? || step.ApplyKeepAlive? || step.ApplyFlush? || step.ApplyWrite?
          || step.ApplyAck? || step.ApplyAfterFlush? || step.ApplyWhenIdle? || step.ApplyStatus?
    ensures Inv(log, After(log, st, step))
  {
    match step
    case ApplyStart => ApplyStartInv(log, st);
    case ApplyMessage(lsn) => ApplyMessageInv(log, st, lsn);
    case ApplyKeepAlive(lsn) => ApplyKeepAliveInv(log, st, lsn);
    case ApplyFlush => ApplyFlushInv(log, st);
    case ApplyWrite => ApplyWriteInv(log, st);
    case ApplyAck => ApplyAckInv(log, st);
    case ApplyAfterFlush => ApplyAfterFlushInv(log, st);
    case ApplyWhenIdle => ApplyWhenIdleInv(log, st);
    case ApplyStatus => ApplyStatusInv(log, st);
  }

  lemma SyncSideInv(log: seq<Transaction>, st: State, step: Step)
    requires ValidLog(log) && Inv(log, st) && Enabled(log, st, step)
    requires step.SyncStream? || step.SyncMessage? || step.SyncKeepAlive? || step.SyncFlush? || step.SyncWrite?
          || step.SyncAck? || step.SyncAfterFlush? || step.SyncWhenIdle?
    ensures Inv(log, After(log, st, step))
  {
    match step
    case SyncStream => SyncStreamInv(log, st);
    case SyncMessage(lsn) => SyncMessageInv(log, st, lsn);
    case SyncKeepAlive(_) => SyncPipelineInv(log, st, step);
    case SyncFlush => SyncPipelineInv(log, st, step);
    case SyncWrite => SyncWriteInv(log, st);
    case SyncAck => SyncAckInv(log, st);
    case SyncAfterFlush(_) => SyncCompleteInv(log, st, step);
    case SyncWhenIdle(_) => SyncCompleteInv(log, st, step);
  }

  /** Every step but the flawed marking keeps the invariant. */
  lemma StepInv(log: seq<Transaction>, st: State, step: Step)
    requires ValidLog(log) && Inv(log, st) && Enabled(log, st, step) && !MarksUnstored(st, step)
    ensures Inv(log, After(log, st, step))
  {
    if step.SyncFail? {
      SyncFailInv(log, st);
    } else if step.SyncRetry? {
      SyncRetryInv(log, st);
    } else if step.SyncExit? || step.ApplyStop? || step.Crash? {
      StopInv(log, st, step);
    } else if step.SyncDrop? || step.SyncClear? || step.SyncCopy? || step.SyncCopied? || step.SyncAwait? {
      CopyStepInv(log, st, step);
    } else if step.SyncStream? || step.SyncMessage? || step.SyncKeepAlive? || step.SyncFlush? || step.SyncWrite?
           || step.SyncAck? || step.SyncAfterFlush? || step.SyncWhenIdle? {
      SyncSideInv(log, st, step);
    } else {
      ApplySideInv(log, st, step);
    }
  }

  lemma {:induction false} RunInv(log: seq<Transaction>, st: State, steps: seq<Step>)
    requires ValidLog(log) && Inv(log, st)
    requires CanRun(log, st, steps) && MarksStoredOnly(log, st, steps)
    ensures Inv(log, Final(log, st, steps))
    decreases |steps|
  {
    if steps != [] {
      StepInv(log, st, steps[0]);
      RunInv(log, After(log, st, steps[0]), steps[1..]);
    }
  }

  lemma InvLosesNothing(log: seq<Transaction>, st: State)
    requires Inv(log, st)
    ensures st.stored != [] && NothingLost(log, st)
  {
    if Handed(Current(st)) && st.worker.Some? {
      assert st.worker.value.stage.Finished?;
    }
  }

  /** No run loses a row, unless it marks a table ready on an unstored `SyncDone`. */
  lemma NoLoss(log: seq<Transaction>, st: State, steps: seq<Step>)
    requires ValidLog(log) && Initial(st)
    requires CanRun(log, st, steps) && MarksStoredOnly(log, st, steps)
    ensures Final(log, st, steps).stored != []
    ensures NothingLost(log, Final(log, st, steps))
  {
    InitialInv(log, st);
    RunInv(log, st, steps);
    InvLosesNothing(log, Final(log, st, steps));
  }
}
