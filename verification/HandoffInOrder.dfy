/**
  Order under crashes and restarts: a row may be delivered again, but when it is delivered
  for the first time every earlier row since the copied snapshot has been delivered.
*/
module HandoffInOrder {
  import opened Wrappers
  import opened ApplyStream
  import opened Handoff
  import opened HandoffNoLoss
  import opened HandoffExactlyOnce

  /** A row at or past the copied snapshot that comes before `w` in commit order. */
  predicate Earlier(log: seq<Transaction>, dest: Destination, e: Event, w: Event) {
    IsRow(log, e) && dest.snapshot.Some? && dest.snapshot.value <= log[e.txn].commitLsn && Before(e, w)
  }

  /** Every earlier row is at the destination or among `ahead`. */
  ghost predicate Preceded(log: seq<Transaction>, dest: Destination, ahead: seq<Event>, w: Event) {
    forall e :: Earlier(log, dest, e, w) ==> e in dest.rows || e in ahead
  }

  /** Writing the events in this order delivers no row before an earlier one. */
  ghost predicate Queued(log: seq<Transaction>, dest: Destination, events: seq<Event>) {
    forall k :: 0 <= k < |events| && IsRow(log, events[k]) ==> Preceded(log, dest, events[..k], events[k])
  }

  /** Each row was written after all earlier ones. */
  ghost predicate InOrder(log: seq<Transaction>, dest: Destination) {
    forall i, e :: 0 <= i < |dest.rows| && Earlier(log, dest, e, dest.rows[i]) ==> e in dest.rows[..i]
  }

  ghost predicate OnlyRows(log: seq<Transaction>, dest: Destination) {
    forall i :: 0 <= i < |dest.rows| ==> IsRow(log, dest.rows[i])
  }

  ghost predicate Ordered(log: seq<Transaction>, st: State)
    requires st.stored != []
  {
    CopyTaken(st) ==>
      && st.dest.snapshot.Some? && OnlyRows(log, st.dest) && InOrder(log, st.dest)
      && (st.apply.Some? ==> Queued(log, st.dest, PendingEvents(st.apply.value)))
      && (SyncRuns(st) ==> Queued(log, st.dest, PendingEvents(SyncStreamOf(st))))
  }

  /**
    A new copy starts past every row the apply worker still holds: PostgreSQL streams only
    committed transactions, and gives a new slot a snapshot that contains all of them.
  */
  ghost predicate CopiesAhead(log: seq<Transaction>, st: State, step: Step) {
    step.SyncCopy? && st.apply.Some? ==>
      forall e :: e in PendingEvents(st.apply.value) && IsRow(log, e) ==> log[e.txn].commitLsn < step.lsn
  }

  ghost predicate CopiesAheadRun(log: seq<Transaction>, st: State, steps: seq<Step>)
    requires CanRun(log, st, steps)
    decreases |steps|
  {
    steps == [] || (CopiesAhead(log, st, steps[0]) && CopiesAheadRun(log, After(log, st, steps[0]), steps[1..]))
  }

  lemma QueuedAppend(log: seq<Transaction>, dest: Destination, events: seq<Event>, w: Event)
    requires Queued(log, dest, events) && (IsRow(log, w) ==> Preceded(log, dest, events, w))
    ensures Queued(log, dest, events + [w])
  {
    var all := events + [w];
    forall k | 0 <= k < |all| && IsRow(log, all[k]) ensures Preceded(log, dest, all[..k], all[k]) {
      assert all[..k] == if k < |events| then events[..k] else events;
    }
  }

  lemma QueuedGrows(log: seq<Transaction>, dest: Destination, w: Event, events: seq<Event>)
    requires Queued(log, dest, events)
    ensures Queued(log, WriteTo(log, dest, w), events)
  {
    var dest' := WriteTo(log, dest, w);
    forall k | 0 <= k < |events| && IsRow(log, events[k]) ensures Preceded(log, dest', events[..k], events[k]) {
      assert Preceded(log, dest, events[..k], events[k]);
      assert forall e :: Earlier(log, dest', e, events[k]) ==> Earlier(log, dest, e, events[k]);
    }
  }

  lemma QueuedWrite(log: seq<Transaction>, dest: Destination, events: seq<Event>)
    requires events != [] && Queued(log, dest, events)
    ensures Queued(log, WriteTo(log, dest, events[0]), events[1..])
  {
    var dest', rest := WriteTo(log, dest, events[0]), events[1..];
    forall k | 0 <= k < |rest| && IsRow(log, rest[k]) ensures Preceded(log, dest', rest[..k], rest[k]) {
      assert Preceded(log, dest, events[..k + 1], events[k + 1]);
      assert events[..k + 1] == [events[0]] + rest[..k];
      assert forall e :: Earlier(log, dest', e, rest[k]) ==> Earlier(log, dest, e, rest[k]);
    }
  }

  lemma WriteInOrder(log: seq<Transaction>, dest: Destination, events: seq<Event>)
    requires events != [] && Queued(log, dest, events) && InOrder(log, dest) && OnlyRows(log, dest)
    ensures var dest' := WriteTo(log, dest, events[0]); InOrder(log, dest') && OnlyRows(log, dest')
  {
    var w := events[0];
    var dest' := WriteTo(log, dest, w);
    if IsRow(log, w) {
      assert events[..0] == [];
      assert Preceded(log, dest, [], w);
      forall i, e | 0 <= i < |dest'.rows| && Earlier(log, dest', e, dest'.rows[i]) ensures e in dest'.rows[..i] {
        assert Earlier(log, dest, e, dest'.rows[i]);
        assert dest'.rows[..i] == if i < |dest.rows| then dest.rows[..i] else dest.rows;
      }
    }
  }

  lemma PendingIsEvents(s: Stream, e: Event)
    ensures Pending(s, e) <==> e in PendingEvents(s)
  {
  }

  /** Reading one message: it is left out, or put at the end of what is pending. */
  lemma DeliverPending(log: seq<Transaction>, s: Stream, lsn: Lsn, owns: bool)
    requires CanRead(log, s)
    ensures var w := Event(s.next, s.ordinal);
      var p := PendingEvents(Deliver(log, s, lsn, owns));
      p == PendingEvents(s) + [w] || (p == PendingEvents(s) && !owns)
    ensures var w := Event(s.next, s.ordinal);
      PendingEvents(Deliver(log, s, lsn, owns)) == PendingEvents(s) + [w] && IsRow(log, w) ==> owns
  {
    var s' := Deliver(log, s, lsn, owns);
    var w := Event(s.next, s.ordinal);
    if s'.batch.events == s.batch.events + [w] {
      assert PendingEvents(s') == PendingEvents(s) + [w];
    }
  }

  /** A step that writes nothing and queues nothing keeps the order. */
  lemma QuietOrdered(log: seq<Transaction>, st: State, st': State)
    requires st.stored != [] && st'.stored != [] && Ordered(log, st)
    requires CopyTaken(st') ==> CopyTaken(st) && st'.dest == st.dest
    requires st'.apply.Some? ==> PendingEvents(st'.apply.value) == [] || (st.apply.Some? && PendingEvents(st'.apply.value) == PendingEvents(st.apply.value))
    requires SyncRuns(st') ==>
      PendingEvents(SyncStreamOf(st')) == [] || (SyncRuns(st) && PendingEvents(SyncStreamOf(st')) == PendingEvents(SyncStreamOf(st)))
    ensures Ordered(log, st')
  {
  }

  lemma ApplyDeliverOrdered(log: seq<Transaction>, st: State, lsn: Lsn)
    requires ValidLog(log) && Inv(log, st) && Ordered(log, st) && Enabled(log, st, ApplyMessage(lsn)) && CopyTaken(st)
    ensures Queued(log, st.dest, PendingEvents(ApplyDelivers(log, st, lsn).apply.value))
  {
    var s, p := st.apply.value, Visible(st);
    var owns := ApplyOwns(p, log[s.next].commitLsn);
    var w := Event(s.next, s.ordinal);
    DeliverPending(log, s, lsn, owns);
    if PendingEvents(Deliver(log, s, lsn, owns)) == PendingEvents(s) + [w] {
      if IsRow(log, w) {
        forall e | Earlier(log, st.dest, e, w) ensures e in st.dest.rows || e in PendingEvents(s) {
          assert Delivered(s, e);
          PendingIsEvents(s, e);
        }
      }
      QueuedAppend(log, st.dest, PendingEvents(s), w);
    }
  }

  lemma SyncDeliverOrdered(log: seq<Transaction>, st: State, lsn: Lsn)
    requires ValidLog(log) && Inv(log, st) && Ordered(log, st) && Enabled(log, st, SyncMessage(lsn))
    ensures Queued(log, st.dest, PendingEvents(Deliver(log, SyncStreamOf(st), lsn, true)))
  {
    var s := SyncStreamOf(st);
    var w := Event(s.next, s.ordinal);
    DeliverPending(log, s, lsn, true);
    if IsRow(log, w) {
      forall e | Earlier(log, st.dest, e, w) ensures e in st.dest.rows || e in PendingEvents(s) {
        assert Delivered(s, e);
        PendingIsEvents(s, e);
      }
    }
    QueuedAppend(log, st.dest, PendingEvents(s), w);
  }

  lemma ApplyMessageOrdered(log: seq<Transaction>, st: State, lsn: Lsn)
    requires ValidLog(log) && Inv(log, st) && Ordered(log, st) && Enabled(log, st, ApplyMessage(lsn))
    ensures Ordered(log, After(log, st, ApplyMessage(lsn)))
  {
    var st1, st' := ApplyDelivers(log, st, lsn), After(log, st, ApplyMessage(lsn));
    if CopyTaken(st) { ApplyDeliverOrdered(log, st, lsn); }
    assert Ordered(log, st1);
    QuietOrdered(log, st1, st');
  }

  lemma SyncMessageOrdered(log: seq<Transaction>, st: State, lsn: Lsn)
    requires ValidLog(log) && Inv(log, st) && Ordered(log, st) && Enabled(log, st, SyncMessage(lsn))
    ensures Ordered(log, After(log, st, SyncMessage(lsn)))
  {
    SyncDeliverOrdered(log, st, lsn);
    var st' := After(log, st, SyncMessage(lsn));
    assert PendingEvents(SyncStreamOf(st')) == PendingEvents(Deliver(log, SyncStreamOf(st), lsn, true));
  }

  lemma WritePending(s: Stream)
    requires CanWrite(s)
    ensures PendingEvents(s) != [] && PendingEvents(s)[0] == NextWrite(s) && PendingEvents(s)[1..] == PendingEvents(Written(s))
  {
  }

  lemma ApplyWriteOrdered(log: seq<Transaction>, st: State)
    requires st.stored != [] && Ordered(log, st) && Enabled(log, st, ApplyWrite)
    ensures Ordered(log, After(log, st, ApplyWrite))
  {
    if CopyTaken(st) {
      var s := st.apply.value;
      WritePending(s);
      QueuedWrite(log, st.dest, PendingEvents(s));
      WriteInOrder(log, st.dest, PendingEvents(s));
      if SyncRuns(st) { QueuedGrows(log, st.dest, NextWrite(s), PendingEvents(SyncStreamOf(st))); }
    }
  }

  lemma SyncWriteOrdered(log: seq<Transaction>, st: State)
    requires st.stored != [] && Ordered(log, st) && Enabled(log, st, SyncWrite)
    ensures Ordered(log, After(log, st, SyncWrite))
  {
    var s := SyncStreamOf(st);
    WritePending(s);
    QueuedWrite(log, st.dest, PendingEvents(s));
    WriteInOrder(log, st.dest, PendingEvents(s));
    if st.apply.Some? { QueuedGrows(log, st.dest, NextWrite(s), PendingEvents(st.apply.value)); }
  }

  lemma SyncCopyOrdered(log: seq<Transaction>, st: State, lsn: Lsn)
    requires ValidLog(log) && Enabled(log, st, SyncCopy(lsn)) && CopiesAhead(log, st, SyncCopy(lsn))
    ensures Ordered(log, After(log, st, SyncCopy(lsn)))
  {
    var dest := Destination(Some(lsn), []);
    if st.apply.Some? {
      var p := PendingEvents(st.apply.value);
      forall k | 0 <= k < |p| && IsRow(log, p[k]) ensures Preceded(log, dest, p[..k], p[k]) {
        assert log[p[k].txn].commitLsn < lsn;
        assert forall e :: IsRow(log, e) && Before(e, p[k]) ==> log[e.txn].commitLsn <= log[p[k].txn].commitLsn;
      }
    }
  }

  lemma FlushPending(s: Stream)
    ensures PendingEvents(TryFlush(s)) == PendingEvents(s)
  {
  }

  lemma AckPending(s: Stream, progress: Option<Lsn>)
    requires CanAck(s)
    ensures PendingEvents(Acked(s, progress)) == PendingEvents(s)
  {
  }

  lemma ApplyQuietOrdered(log: seq<Transaction>, st: State, step: Step)
    requires Shape(log, st) && Ordered(log, st) && Enabled(log, st, step)
    requires step.ApplyStart? || step.ApplyStop? || step.ApplyKeepAlive? || step.ApplyFlush? || step.ApplyAck? || step.ApplyStatus?
    ensures Ordered(log, After(log, st, step))
  {
    if step.ApplyFlush? { FlushPending(st.apply.value); }
    if step.ApplyAck? { AckPending(st.apply.value, st.progress); }
    QuietOrdered(log, st, After(log, st, step));
  }

  lemma ApplyTableOrdered(log: seq<Transaction>, st: State, step: Step)
    requires Shape(log, st) && Ordered(log, st) && Enabled(log, st, step) && (step.ApplyAfterFlush? || step.ApplyWhenIdle?)
    ensures Ordered(log, After(log, st, step))
  {
    QuietOrdered(log, st, After(log, st, step));
  }

  lemma SyncQuietOrdered(log: seq<Transaction>, st: State, step: Step)
    requires Shape(log, st) && Ordered(log, st) && Enabled(log, st, step)
    requires step.SyncStream? || step.SyncKeepAlive? || step.SyncFlush? || step.SyncAck?
    ensures Ordered(log, After(log, st, step))
  {
    if step.SyncFlush? { FlushPending(SyncStreamOf(st)); }
    if step.SyncAck? { AckPending(SyncStreamOf(st), st.syncProgress); }
    QuietOrdered(log, st, After(log, st, step));
  }

  lemma SyncCompleteOrdered(log: seq<Transaction>, st: State, step: Step)
    requires Shape(log, st) && Ordered(log, st) && Enabled(log, st, step) && (step.SyncAfterFlush? || step.SyncWhenIdle?)
    ensures Ordered(log, After(log, st, step))
  {
    QuietOrdered(log, st, After(log, st, step));
  }

  lemma CopyQuietOrdered(log: seq<Transaction>, st: State, step: Step)
    requires Shape(log, st) && Ordered(log, st) && Enabled(log, st, step)
    requires step.SyncDrop? || step.SyncClear? || step.SyncCopied? || step.SyncAwait?
    ensures Ordered(log, After(log, st, step))
  {
    QuietOrdered(log, st, After(log, st, step));
  }

  lemma FailureOrdered(log: seq<Transaction>, st: State, step: Step)
    requires Shape(log, st) && Ordered(log, st) && Enabled(log, st, step)
    requires step.SyncFail? || step.SyncRetry? || step.SyncExit? || step.Crash?
    ensures After(log, st, step).stored != [] && Ordered(log, After(log, st, step))
  {
    QuietOrdered(log, st, After(log, st, step));
  }

  lemma ApplyStepOrdered(log: seq<Transaction>, st: State, step: Step)
    requires ValidLog(log) && Inv(log, st) && Ordered(log, st) && Enabled(log, st, step)
    requires step.ApplyMessage? || step.ApplyWrite? || step.ApplyAfterFlush? || step.ApplyWhenIdle? || step.ApplyStart?
          || step.ApplyStop? || step.ApplyKeepAlive? || step.ApplyFlush? || step.ApplyAck? || step.ApplyStatus?
    ensures After(log, st, step).stored != [] && Ordered(log, After(log, st, step))
  {
    if step.ApplyMessage? {
      ApplyMessageOrdered(log, st, step.lsn);
    } else if step.ApplyWrite? {
      ApplyWriteOrdered(log, st);
    } else if step.ApplyAfterFlush? || step.ApplyWhenIdle? {
      ApplyTableOrdered(log, st, step);
    } else {
      ApplyQuietOrdered(log, st, step);
    }
  }

  lemma SyncStepOrdered(log: seq<Transaction>, st: State, step: Step)
    requires ValidLog(log) && Inv(log, st) && Ordered(log, st) && Enabled(log, st, step) && CopiesAhead(log, st, step)
    requires step.SyncMessage? || step.SyncWrite? || step.SyncCopy? || step.SyncAfterFlush? || step.SyncWhenIdle?
    ensures After(log, st, step).stored != [] && Ordered(log, After(log, st, step))
  {
    if step.SyncMessage? {
      SyncMessageOrdered(log, st, step.lsn);
    } else if step.SyncWrite? {
      SyncWriteOrdered(log, st);
    } else if step.SyncCopy? {
      SyncCopyOrdered(log, st, step.lsn);
    } else {
      SyncCompleteOrdered(log, st, step);
    }
  }

  lemma StepOrdered(log: seq<Transaction>, st: State, step: Step)
    requires ValidLog(log) && Inv(log, st) && Ordered(log, st) && Enabled(log, st, step) && CopiesAhead(log, st, step)
    ensures After(log, st, step).stored != [] && Ordered(log, After(log, st, step))
  {
    if step.SyncDrop? || step.SyncClear? || step.SyncCopied? || step.SyncAwait? {
      CopyQuietOrdered(log, st, step);
    } else if step.SyncFail? || step.SyncRetry? || step.SyncExit? || step.Crash? {
      FailureOrdered(log, st, step);
    } else if step.SyncStream? || step.SyncKeepAlive? || step.SyncFlush? || step.SyncAck? {
      SyncQuietOrdered(log, st, step);
    } else if step.ApplyMessage? || step.ApplyWrite? || step.ApplyAfterFlush? || step.ApplyWhenIdle? || step.ApplyStart?
           || step.ApplyStop? || step.ApplyKeepAlive? || step.ApplyFlush? || step.ApplyAck? || step.ApplyStatus? {
      ApplyStepOrdered(log, st, step);
    } else {
      SyncStepOrdered(log, st, step);
    }
  }

  lemma {:induction false} RunOrdered(log: seq<Transaction>, st: State, steps: seq<Step>)
    requires ValidLog(log) && Inv(log, st) && Ordered(log, st)
    requires CanRun(log, st, steps) && MarksStoredOnly(log, st, steps) && CopiesAheadRun(log, st, steps)
    ensures Inv(log, Final(log, st, steps)) && Ordered(log, Final(log, st, steps))
    decreases |steps|
  {
    if steps != [] {
      StepInv(log, st, steps[0]);
      StepOrdered(log, st, steps[0]);
      RunOrdered(log, After(log, st, steps[0]), steps[1..]);
    }
  }

  /** The rows since the snapshot, each where it was written first. */
  function FirstDeliveries(log: seq<Transaction>, dest: Destination, n: nat): seq<Event>
    requires n <= |dest.rows| && dest.snapshot.Some? && forall i :: 0 <= i < |dest.rows| ==> IsRow(log, dest.rows[i])
  {
    if n == 0 then []
    else
      var w := dest.rows[n - 1];
      FirstDeliveries(log, dest, n - 1)
      + if dest.snapshot.value <= log[w.txn].commitLsn && w !in dest.rows[..n - 1] then [w] else []
  }

  lemma {:induction false} FirstDeliveriesMembers(log: seq<Transaction>, dest: Destination, n: nat)
    requires n <= |dest.rows| && dest.snapshot.Some? && OnlyRows(log, dest)
    ensures forall e :: e in FirstDeliveries(log, dest, n) <==>
              e in dest.rows[..n] && dest.snapshot.value <= log[e.txn].commitLsn
  {
    if n > 0 {
      FirstDeliveriesMembers(log, dest, n - 1);
      assert dest.rows[..n] == dest.rows[..n - 1] + [dest.rows[n - 1]];
    }
  }

  /** An element of a strictly ordered sequence whose predecessors are exactly covered by a prefix comes next. */
  lemma NextInOrder(all: seq<Event>, done: seq<Event>, w: Event)
    requires forall i, j :: 0 <= i < j < |all| ==> Before(all[i], all[j])
    requires done <= all && w in all && w !in done
    requires forall e :: e in all && Before(e, w) ==> e in done
    ensures done + [w] <= all
  {
    var j :| 0 <= j < |all| && all[j] == w;
    assert forall k :: 0 <= k < |done| ==> done[k] == all[k];
    assert |done| <= j;
    assert forall k :: 0 <= k < |done| ==> Before(done[k], all[|done|]);
    assert all[|done|] !in done;
  }

  lemma {:induction false} FirstDeliveriesPrefix(log: seq<Transaction>, dest: Destination, n: nat)
    requires ValidLog(log) && n <= |dest.rows| && dest.snapshot.Some? && OnlyRows(log, dest) && InOrder(log, dest)
    ensures FirstDeliveries(log, dest, n) <= AllRows(log, Seek(log, dest.snapshot.value), |log|)
  {
    if n > 0 {
      FirstDeliveriesPrefix(log, dest, n - 1);
      var all, done, w := AllRows(log, Seek(log, dest.snapshot.value), |log|), FirstDeliveries(log, dest, n - 1), dest.rows[n - 1];
      if dest.snapshot.value <= log[w.txn].commitLsn && w !in dest.rows[..n - 1] {
        EarlierDelivered(log, dest, n);
        NextInOrder(all, done, w);
      }
    }
  }

  lemma EarlierDelivered(log: seq<Transaction>, dest: Destination, n: nat)
    requires ValidLog(log) && 0 < n <= |dest.rows| && dest.snapshot.Some? && OnlyRows(log, dest) && InOrder(log, dest)
    requires dest.snapshot.value <= log[dest.rows[n - 1].txn].commitLsn && dest.rows[n - 1] !in dest.rows[..n - 1]
    ensures var all, done := AllRows(log, Seek(log, dest.snapshot.value), |log|), FirstDeliveries(log, dest, n - 1);
      && (forall i, j :: 0 <= i < j < |all| ==> Before(all[i], all[j]))
      && dest.rows[n - 1] in all && dest.rows[n - 1] !in done
      && (forall e :: e in all && Before(e, dest.rows[n - 1]) ==> e in done)
  {
    AllRowsOrdered(log, Seek(log, dest.snapshot.value), |log|);
    FirstDeliveriesMembers(log, dest, n - 1);
    SinceSnapshot(log, dest.snapshot.value);
    forall e | e in AllRows(log, Seek(log, dest.snapshot.value), |log|) && Before(e, dest.rows[n - 1])
      ensures e in FirstDeliveries(log, dest, n - 1)
    {
      assert Earlier(log, dest, e, dest.rows[n - 1]);
    }
  }

  lemma SinceSnapshot(log: seq<Transaction>, lsn: Lsn)
    requires ValidLog(log)
    ensures forall i :: 0 <= i < |log| ==> (Seek(log, lsn) <= i <==> lsn <= log[i].commitLsn)
  {
    var n := Seek(log, lsn);
    forall i | n < i < |log| ensures lsn <= log[i].commitLsn { assert log[n].endLsn <= log[i].commitLsn; }
  }

  /**
    Whatever stops, crashes, failures and retries a run holds, as long as it marks no
    unstored `SyncDone` ready: the rows since the snapshot, taken where each was delivered
    first, are an initial piece of the log in commit order. Deliveries after a restart
    repeat rows; they never skip or reorder one.
  */
  lemma FirstDeliveriesInOrder(log: seq<Transaction>, st: State, steps: seq<Step>)
    requires ValidLog(log) && Initial(st)
    requires CanRun(log, st, steps) && MarksStoredOnly(log, st, steps) && CopiesAheadRun(log, st, steps)
    ensures var last := Final(log, st, steps);
      last.stored != [] && (CopyTaken(last) ==>
        && last.dest.snapshot.Some?
        && OnlyRows(log, last.dest)
        && FirstDeliveries(log, last.dest, |last.dest.rows|) <= AllRows(log, Seek(log, last.dest.snapshot.value), |log|))
  {
    InitialInv(log, st);
    RunOrdered(log, st, steps);
    var last := Final(log, st, steps);
    if CopyTaken(last) { FirstDeliveriesPrefix(log, last.dest, |last.dest.rows|); }
  }
}
