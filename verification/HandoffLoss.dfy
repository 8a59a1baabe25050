/**
  What happens when the apply worker marks a table ready on a `SyncDone` that was
  never stored: the worker then records an error on top of `Ready`, the apply worker
  skips the table meanwhile, and the timed retry rolls back to `Ready`.
*/
module HandoffLoss {
  import opened Wrappers
  import opened ApplyStream
  import opened Handoff

  lemma {:induction false} RunConcat(log: seq<Transaction>, st: State, a: seq<Step>, b: seq<Step>)
    requires CanRun(log, st, a) && CanRun(log, Final(log, st, a), b)
    ensures CanRun(log, st, a + b)
    ensures Final(log, st, a + b) == Final(log, Final(log, st, a), b)
    decreases |a|
  {
    if a == [] {
      assert a + b == b;
    } else {
      assert (a + b)[1..] == a[1..] + b;
      RunConcat(log, After(log, st, a[0]), a[1..], b);
    }
  }

  lemma RunOne(log: seq<Transaction>, st: State, step: Step)
    requires Enabled(log, st, step)
    ensures CanRun(log, st, [step]) && Final(log, st, [step]) == After(log, st, step)
  {
  }

  /** The table is in error and the apply stream holds no row, in flight or buffered. */
  ghost predicate Skipping(log: seq<Transaction>, st: State) {
    && st.stored != [] && Current(st).Errored?
    && st.worker == Some(Worker(Errored, Failed))
    && st.apply.Some?
    && !st.apply.value.paused && !st.apply.value.acked && !st.apply.value.exiting
    && (forall e :: e in st.apply.value.batch.events ==> !IsRow(log, e))
    && (st.apply.value.inflight.Some? ==>
          && st.apply.value.inflight.value.written <= |st.apply.value.inflight.value.batch.events|
          && forall e :: e in st.apply.value.inflight.value.batch.events ==> !IsRow(log, e))
  }

  ghost predicate SameTable(a: State, b: State) {
    a.stored == b.stored && a.dest == b.dest && a.progress == b.progress && a.confirmed == b.confirmed
  }

  /** While the table is in error the apply worker skims past any transaction without keeping rows. */
  lemma {:induction false} ReadPast(log: seq<Transaction>, st: State, txn: nat) returns (steps: seq<Step>)
    requires ValidLog(log) && Skipping(log, st) && txn < |log|
    requires st.apply.value.inflight.None?
    requires st.apply.value.next <= txn && st.apply.value.ordinal <= log[st.apply.value.next].rows + 1
    ensures CanRun(log, st, steps)
    ensures var st' := Final(log, st, steps);
      && Skipping(log, st') && SameTable(st, st')
      && st'.apply.value.inflight.None? && st'.apply.value.batch.events != []
      && st'.apply.value.batch.commitEnd.Some?
      && log[txn].endLsn <= st'.apply.value.batch.commitEnd.value
    decreases txn - st.apply.value.next, log[st.apply.value.next].rows + 1 - st.apply.value.ordinal
  {
    var s := st.apply.value;
    var step := ApplyMessage(if AtCommit(log, s) then log[s.next].endLsn else 0);
    var st1 := After(log, st, step);
    assert Skipping(log, st1) && SameTable(st, st1);
    RunOne(log, st, step);
    if AtCommit(log, s) && s.next == txn {
      steps := [step];
    } else {
      var rest := ReadPast(log, st1, txn);
      RunConcat(log, st, [step], rest);
      steps := [step] + rest;
    }
  }

  /** Writing a batch without rows leaves the destination as it was. */
  lemma {:induction false} WriteAll(log: seq<Transaction>, st: State) returns (steps: seq<Step>)
    requires Skipping(log, st) && st.apply.value.inflight.Some?
    ensures CanRun(log, st, steps)
    ensures var st' := Final(log, st, steps);
      && Skipping(log, st') && SameTable(st, st')
      && CanAck(st'.apply.value)
      && st'.apply.value.inflight.value.batch == st.apply.value.inflight.value.batch
    decreases |st.apply.value.inflight.value.batch.events| - st.apply.value.inflight.value.written
  {
    if CanWrite(st.apply.value) {
      assert NextWrite(st.apply.value) in st.apply.value.inflight.value.batch.events;
      var st1 := After(log, st, ApplyWrite);
      RunOne(log, st, ApplyWrite);
      var rest := WriteAll(log, st1);
      RunConcat(log, st, [ApplyWrite], rest);
      steps := [ApplyWrite] + rest;
    } else {
      steps := [];
    }
  }

  /** Flushing such a batch moves the durable progress past its commits. */
  lemma FlushPast(log: seq<Transaction>, st: State) returns (steps: seq<Step>)
    requires Skipping(log, st) && st.apply.value.inflight.None? && st.apply.value.batch.events != []
    requires st.apply.value.batch.commitEnd.Some?
    ensures CanRun(log, st, steps)
    ensures var st' := Final(log, st, steps);
      && st'.stored == st.stored && st'.dest == st.dest && st'.worker == st.worker
      && st.apply.value.batch.commitEnd.value <= ResumeAt(st')
  {
    var st1 := After(log, st, ApplyFlush);
    RunOne(log, st, ApplyFlush);
    var writes := WriteAll(log, st1);
    var st2 := Final(log, st1, writes);
    RunOne(log, st2, ApplyAck);
    RunConcat(log, st1, writes, [ApplyAck]);
    RunConcat(log, st, [ApplyFlush], writes + [ApplyAck]);
    steps := [ApplyFlush] + (writes + [ApplyAck]);
  }

  /** From an errored table, read and flush past `txn`, then roll the error back. */
  lemma SkipAndRollBack(log: seq<Transaction>, st: State, txn: nat) returns (steps: seq<Step>)
    requires ValidLog(log) && Skipping(log, st) && txn < |log|
    requires st.apply.value.inflight.None? && st.apply.value.ordinal == 0 && st.apply.value.next <= txn
    requires |st.stored| >= 2
    ensures CanRun(log, st, steps)
    ensures var st' := Final(log, st, steps);
      && st'.stored == st.stored[..|st.stored| - 1] && st'.dest == st.dest
      && log[txn].endLsn <= ResumeAt(st')
  {
    var skims := ReadPast(log, st, txn);
    var st1 := Final(log, st, skims);
    var flush := FlushPast(log, st1);
    var st2 := Final(log, st1, flush);
    RunOne(log, st2, SyncRetry);
    RunConcat(log, st1, flush, [SyncRetry]);
    RunConcat(log, st, skims, flush + [SyncRetry]);
    steps := skims + (flush + [SyncRetry]);
  }

  lemma RunAfter(log: seq<Transaction>, st: State, step: Step, rest: seq<Step>)
    requires Enabled(log, st, step) && CanRun(log, After(log, st, step), rest)
    ensures CanRun(log, st, [step] + rest)
    ensures Final(log, st, [step] + rest) == Final(log, After(log, st, step), rest)
  {
  }

  /** The worker records its failure, the apply worker starts, skips past `txn`, and the failure is rolled back. */
  lemma FailAndSkip(log: seq<Transaction>, st: State, txn: nat) returns (steps: seq<Step>)
    requires ValidLog(log) && st.stored != [] && st.apply.None?
    requires st.worker.Some? && st.worker.value.stage.StoreFailed?
    requires txn < |log| && ResumeAt(st) <= log[txn].commitLsn
    ensures CanRun(log, st, steps)
    ensures var st' := Final(log, st, steps);
      st'.stored == st.stored && st'.dest == st.dest && log[txn].commitLsn < ResumeAt(st')
  {
    var st1 := After(log, st, SyncFail);
    var st2 := After(log, st1, ApplyStart);
    var skip := SkipAndRollBack(log, st2, txn);
    RunAfter(log, st1, ApplyStart, skip);
    RunAfter(log, st, SyncFail, [ApplyStart] + skip);
    steps := [SyncFail] + ([ApplyStart] + skip);
    assert st1.stored[..|st1.stored| - 1] == st.stored;
  }

  /**
    Once the store says `Ready` while the worker's `SyncDone` is unstored, any row that
    is not yet at the destination can be lost for good by some continuation.
  */
  lemma UnstoredReadyLoses(log: seq<Transaction>, st: State, row: Event) returns (steps: seq<Step>)
    requires ValidLog(log) && st.stored != [] && Current(st).Ready?
    requires st.worker.Some? && st.worker.value.stage.StoreFailed?
    requires IsRow(log, row) && !Covered(log, st.dest, row)
    ensures CanRun(log, st, steps)
    ensures Final(log, st, steps).stored != [] && !NothingLost(log, Final(log, st, steps))
  {
    if log[row.txn].commitLsn < ResumeAt(st) {
      steps := [];
    } else if st.apply.Some? {
      var rest := FailAndSkip(log, st.(apply := None), row.txn);
      RunAfter(log, st, ApplyStop, rest);
      steps := [ApplyStop] + rest;
      assert !Covered(log, Final(log, st, steps).dest, row);
    } else {
      steps := FailAndSkip(log, st, row.txn);
      assert !Covered(log, Final(log, st, steps).dest, row);
    }
  }

  const ONE_ROW := [Transaction(10, 20, 1)]

  const NEW_TABLE := State([Init], None, 5, None, Destination(None, []), None, None)

  /** An uninterrupted copy takes a new worker to `SyncWait`. */
  lemma CopyRun(log: seq<Transaction>, st: State, lsn: Lsn) returns (steps: seq<Step>)
    requires st.stored != [] && InStage(st, Spawned) && NeedsCopy(st.worker.value.phase)
    ensures CanRun(log, st, steps)
    ensures Final(log, st, steps) ==
      st.(stored := st.stored + [DataSync] + [FinishedCopy], syncProgress := None,
          dest := Destination(Some(lsn), []), worker := Some(Worker(SyncWait(lsn), Waiting(lsn))))
  {
    var s1 := After(log, st, SyncDrop);
    var s2 := After(log, s1, SyncClear);
    var s3 := After(log, s2, SyncCopy(lsn));
    var s4 := After(log, s3, SyncCopied);
    RunOne(log, s4, SyncAwait);
    RunAfter(log, s3, SyncCopied, [SyncAwait]);
    RunAfter(log, s2, SyncCopy(lsn), [SyncCopied] + [SyncAwait]);
    RunAfter(log, s1, SyncClear, [SyncCopy(lsn)] + ([SyncCopied] + [SyncAwait]));
    steps := [SyncClear] + ([SyncCopy(lsn)] + ([SyncCopied] + [SyncAwait]));
    RunAfter(log, st, SyncDrop, steps);
    steps := [SyncDrop] + steps;
  }

  /** Catch-up of an idle table ends at once; here the store write of `SyncDone` fails. */
  lemma CatchupRun(log: seq<Transaction>, st: State, lsn: Lsn) returns (steps: seq<Step>)
    requires st.stored != [] && Current(st).FinishedCopy? && st.apply == Some(StartAt(log, lsn))
    requires st.worker == Some(Worker(SyncWait(lsn), Waiting(lsn)))
    ensures CanRun(log, st, steps)
    ensures Final(log, st, steps) == st.(worker := Some(Worker(SyncDone(lsn), StoreFailed)))
  {
    var s1 := After(log, st, ApplyWhenIdle);
    assert s1 == st.(worker := Some(Worker(Catchup(lsn), Waiting(lsn))));
    var s2 := After(log, s1, SyncStream);
    RunOne(log, s2, SyncWhenIdle(false));
    RunAfter(log, s1, SyncStream, [SyncWhenIdle(false)]);
    RunAfter(log, st, ApplyWhenIdle, [SyncStream] + [SyncWhenIdle(false)]);
    steps := [ApplyWhenIdle] + ([SyncStream] + [SyncWhenIdle(false)]);
  }

  /** Copy, catch up, fail to store `SyncDone`: the apply worker sees it in memory only. */
  lemma UnstoredState() returns (steps: seq<Step>, st: State)
    ensures CanRun(ONE_ROW, NEW_TABLE, steps) && Final(ONE_ROW, NEW_TABLE, steps) == st
    ensures st.stored == [Init, DataSync, FinishedCopy]
    ensures st.worker == Some(Worker(SyncDone(5), StoreFailed)) && st.apply == Some(StartAt(ONE_ROW, 5))
    ensures st.dest == Destination(Some(5), [])
  {
    var log := ONE_ROW;
    var s1 := After(log, NEW_TABLE, ApplyStart);
    var s2 := After(log, s1, ApplyWhenIdle);
    var copy := CopyRun(log, s2, 5);
    var s3 := Final(log, s2, copy);
    var catchup := CatchupRun(log, s3, 5);
    st := Final(log, s3, catchup);
    RunConcat(log, s2, copy, catchup);
    RunAfter(log, s1, ApplyWhenIdle, copy + catchup);
    RunAfter(log, NEW_TABLE, ApplyStart, [ApplyWhenIdle] + (copy + catchup));
    steps := [ApplyStart] + ([ApplyWhenIdle] + (copy + catchup));
  }

  /** A run from the initial state that loses the only row of the log. */
  lemma LossIsReachable() returns (steps: seq<Step>)
    ensures Initial(NEW_TABLE) && ValidLog(ONE_ROW) && CanRun(ONE_ROW, NEW_TABLE, steps)
    ensures Final(ONE_ROW, NEW_TABLE, steps).stored != []
    ensures !NothingLost(ONE_ROW, Final(ONE_ROW, NEW_TABLE, steps))
  {
    var prefix, st := UnstoredState();
    assert MarksUnstored(st, ApplyWhenIdle);
    var marked := After(ONE_ROW, st, ApplyWhenIdle);
    var rest := UnstoredReadyLoses(ONE_ROW, marked, Event(0, 1));
    RunAfter(ONE_ROW, st, ApplyWhenIdle, rest);
    RunConcat(ONE_ROW, NEW_TABLE, prefix, [ApplyWhenIdle] + rest);
    steps := prefix + ([ApplyWhenIdle] + rest);
  }
}
