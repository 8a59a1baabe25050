/**
  In a run without crashes, failures and restarts the destination receives every row
  committed at or after the copied snapshot exactly once and in commit order, although
  two workers read the log and the table changes owner on the way.
*/
module HandoffExactlyOnce {
  import opened Wrappers
  import opened ApplyStream
  import opened Handoff
  import opened HandoffNoLoss

  /** Rows `1..k` of a transaction. */
  function TxnRows(txn: nat, k: nat): seq<Event> {
    if k == 0 then [] else TxnRows(txn, k - 1) + [Event(txn, k)]
  }

  /** The rows of transactions `from..until` in commit order. */
  function AllRows(log: seq<Transaction>, from: nat, until: nat): seq<Event>
    requires until <= |log|
  {
    if until <= from then [] else AllRows(log, from, until - 1) + TxnRows(until - 1, log[until - 1].rows)
  }

  /** Rows of transaction `next` among its first `ordinal` messages. */
  function PartialRows(log: seq<Transaction>, next: nat, ordinal: nat): seq<Event> {
    if next >= |log| || ordinal == 0 then []
    else TxnRows(next, if ordinal - 1 <= log[next].rows then ordinal - 1 else log[next].rows)
  }

  function RowsUpTo(log: seq<Transaction>, from: nat, next: nat, ordinal: nat): seq<Event>
    requires next <= |log|
  {
    AllRows(log, from, next) + PartialRows(log, next, ordinal)
  }

  function RowsOf(log: seq<Transaction>, events: seq<Event>): seq<Event> {
    if events == [] then []
    else (if IsRow(log, events[0]) then [events[0]] else []) + RowsOf(log, events[1..])
  }

  lemma {:induction false} RowsOfConcat(log: seq<Transaction>, a: seq<Event>, b: seq<Event>)
    ensures RowsOf(log, a + b) == RowsOf(log, a) + RowsOf(log, b)
  {
    if a == [] {
      assert a + b == b;
    } else {
      assert (a + b)[1..] == a[1..] + b;
      RowsOfConcat(log, a[1..], b);
    }
  }

  lemma {:induction false} TxnRowsMembers(txn: nat, k: nat)
    ensures |TxnRows(txn, k)| == k
    ensures forall i :: 0 <= i < k ==> TxnRows(txn, k)[i] == Event(txn, i + 1)
  {
    if k > 0 { TxnRowsMembers(txn, k - 1); }
  }

  predicate Before(a: Event, b: Event) {
    a.txn < b.txn || (a.txn == b.txn && a.ordinal < b.ordinal)
  }

  /** `AllRows` lists each row of its transactions once, in commit order. */
  lemma {:induction false} AllRowsOrdered(log: seq<Transaction>, from: nat, until: nat)
    requires until <= |log|
    ensures forall e :: e in AllRows(log, from, until) <==> IsRow(log, e) && from <= e.txn < until
    ensures forall i, j :: 0 <= i < j < |AllRows(log, from, until)| ==>
      Before(AllRows(log, from, until)[i], AllRows(log, from, until)[j])
  {
    if until > from {
      AllRowsOrdered(log, from, until - 1);
      TxnRowsMembers(until - 1, log[until - 1].rows);
      var head, tail := AllRows(log, from, until - 1), TxnRows(until - 1, log[until - 1].rows);
      var all := AllRows(log, from, until);
      forall e ensures e in all <==> IsRow(log, e) && from <= e.txn < until {
        if IsRow(log, e) && e.txn == until - 1 { assert tail[e.ordinal - 1] == e; }
      }
      forall i, j | 0 <= i < j < |all| ensures Before(all[i], all[j]) {
        if i < |head| <= j { assert head[i] in head; }
      }
    }
  }

  lemma {:induction false} AllRowsPrefix(log: seq<Transaction>, from: nat, mid: nat, until: nat)
    requires mid <= until <= |log|
    ensures AllRows(log, from, mid) <= AllRows(log, from, until)
    decreases until
  {
    if mid < until {
      AllRowsPrefix(log, from, mid, until - 1);
    }
  }

  lemma {:induction false} TxnRowsPrefix(txn: nat, j: nat, k: nat)
    requires j <= k
    ensures TxnRows(txn, j) <= TxnRows(txn, k)
    decreases k
  {
    if j < k { TxnRowsPrefix(txn, j, k - 1); }
  }

  lemma RowsUpToPrefix(log: seq<Transaction>, from: nat, next: nat, ordinal: nat)
    requires from <= next <= |log|
    ensures RowsUpTo(log, from, next, ordinal) <= AllRows(log, from, |log|)
  {
    if next < |log| && ordinal > 0 {
      var k := if ordinal - 1 <= log[next].rows then ordinal - 1 else log[next].rows;
      TxnRowsPrefix(next, k, log[next].rows);
      assert RowsUpTo(log, from, next, ordinal) <= AllRows(log, from, next + 1);
      AllRowsPrefix(log, from, next + 1, |log|);
    } else {
      AllRowsPrefix(log, from, next, |log|);
    }
  }

  /** Events dispatched but not yet written, then events still buffered. */
  function PendingEvents(s: Stream): seq<Event> {
    (if s.inflight.Some? && s.inflight.value.written <= |s.inflight.value.batch.events|
     then s.inflight.value.batch.events[s.inflight.value.written..] else [])
    + s.batch.events
  }

  function PendingRows(log: seq<Transaction>, s: Stream): seq<Event> {
    RowsOf(log, PendingEvents(s))
  }

  /** The row, if it is one, that the next message carries. */
  function NextRow(log: seq<Transaction>, s: Stream): seq<Event> {
    if IsRow(log, Event(s.next, s.ordinal)) then [Event(s.next, s.ordinal)] else []
  }

  /** Reading one message extends the rows read by exactly its row. */
  lemma DeliverReads(log: seq<Transaction>, s: Stream, lsn: Lsn, owns: bool, from: nat)
    requires CanRead(log, s) && from <= s.next
    ensures var s' := Deliver(log, s, lsn, owns);
      RowsUpTo(log, from, s'.next, s'.ordinal) == RowsUpTo(log, from, s.next, s.ordinal) + NextRow(log, s)
  {
  }

  /** The worker that owns the table buffers that row, the other one does not. */
  lemma DeliverBuffers(log: seq<Transaction>, s: Stream, lsn: Lsn, owns: bool)
    requires CanRead(log, s)
    ensures PendingRows(log, Deliver(log, s, lsn, owns)) ==
      PendingRows(log, s) + (if owns then NextRow(log, s) else [])
  {
    var s' := Deliver(log, s, lsn, owns);
    var e := Event(s.next, s.ordinal);
    if s'.batch.events == s.batch.events + [e] {
      assert PendingEvents(s') == PendingEvents(s) + [e];
      RowsOfConcat(log, PendingEvents(s), [e]);
      assert [e][1..] == [];
      assert RowsOf(log, [e]) == NextRow(log, s);
    }
  }

  lemma WriteRows(log: seq<Transaction>, s: Stream, dest: Destination)
    requires CanWrite(s)
    ensures dest.rows + PendingRows(log, s) ==
      WriteTo(log, dest, NextWrite(s)).rows + PendingRows(log, Written(s))
  {
    var w := NextWrite(s);
    assert PendingEvents(s) == [w] + PendingEvents(Written(s));
    assert ([w] + PendingEvents(Written(s)))[1..] == PendingEvents(Written(s));
  }

  lemma FlushRows(log: seq<Transaction>, s: Stream)
    ensures PendingRows(log, TryFlush(s)) == PendingRows(log, s)
  {
    assert PendingEvents(TryFlush(s)) == PendingEvents(s);
  }

  /** Steps of a run in which nothing fails, stops or is retried. */
  predicate Undisturbed(st: State, step: Step) {
    && !step.ApplyStop? && !step.Crash? && !step.SyncFail? && !step.SyncRetry?
    && (step.SyncAfterFlush? ==> step.stores)
    && (step.SyncWhenIdle? ==> step.stores)
    && (step.SyncExit? ==> InStage(st, Finished))
  }

  ghost predicate UndisturbedRun(log: seq<Transaction>, st: State, steps: seq<Step>)
    requires CanRun(log, st, steps)
    decreases |steps|
  {
    steps == [] ||
    (Undisturbed(st, steps[0]) && UndisturbedRun(log, After(log, st, steps[0]), steps[1..]))
  }

  /** No commit at or past the target has been read yet. */
  ghost predicate TargetAhead(s: Stream, target: Lsn) {
    && (s.batch.commitEnd.Some? ==> s.batch.commitEnd.value < target)
    && (s.inflight.Some? && s.inflight.value.batch.commitEnd.Some? ==> s.inflight.value.batch.commitEnd.value < target)
    && (s.flushed < target || (Idle(s) && s.received >= target && !s.acked))
  }

  /** The last commit read is the first to reach the target; it is buffered, in flight or flushed. */
  ghost predicate TargetRead(log: seq<Transaction>, s: Stream, target: Lsn) {
    && s.ordinal == 0 && 0 < s.next <= |log|
    && target <= log[s.next - 1].endLsn <= s.received
    && (|| (&& s.batch.commitEnd == Some(log[s.next - 1].endLsn) && s.batch.events != []
            && (s.inflight.Some? && s.inflight.value.batch.commitEnd.Some? ==> s.inflight.value.batch.commitEnd.value < target)
            && s.flushed < target)
        || (&& s.inflight.Some? && s.inflight.value.batch.commitEnd == Some(log[s.next - 1].endLsn)
            && s.batch.events == [] && s.flushed < target)
        || (s.acked && s.inflight.None? && s.batch.events == [] && s.flushed == log[s.next - 1].endLsn))
  }

  ghost predicate SyncRows(log: seq<Transaction>, rows: seq<Event>, from: nat, target: Lsn, s: Stream)
    requires s.next <= |log|
  {
    && from <= s.next
    && rows + PendingRows(log, s) == RowsUpTo(log, from, s.next, s.ordinal)
    && (if s.exiting then TargetRead(log, s, target) else TargetAhead(s, target))
  }

  /** The apply worker, past transaction `first`, has the destination at exactly what it has read. */
  ghost predicate ApplyRows(log: seq<Transaction>, dest: Destination, a: Stream, first: nat)
    requires a.next <= |log| && first <= |log|
  {
    && dest.snapshot.Some? && Seek(log, dest.snapshot.value) <= first
    && var from := Seek(log, dest.snapshot.value);
       if a.next < first then
         PendingRows(log, a) == [] && dest.rows == AllRows(log, from, first)
       else
         dest.rows + PendingRows(log, a) == RowsUpTo(log, from, a.next, a.ordinal)
  }

  /** The transaction from which the apply worker owns the table. */
  function OwnedFrom(log: seq<Transaction>, st: State): (n: nat)
    requires st.stored != [] && Handed(Visible(st)) && st.apply.Some? && st.apply.value.next <= |log|
    ensures n <= |log|
  {
    if Visible(st).SyncDone? then Seek(log, Visible(st).lsn) else st.apply.value.next
  }

  /** Nothing has failed, and the apply worker has been running since the start. */
  predicate Untroubled(st: State)
    requires st.stored != []
  {
    && (st.apply.None? ==> st.worker.None? && Current(st).Init?)
    && !Current(st).Errored?
    && (st.worker.Some? ==>
          !st.worker.value.stage.StoreFailed? && !st.worker.value.stage.Failed? && !st.worker.value.stage.FailedLate?)
  }

  /** What the table-sync worker has written and still holds is exactly what it has read. */
  ghost predicate SyncAccount(log: seq<Transaction>, st: State)
    requires Shape(log, st)
  {
    && (st.worker.Some? && (st.worker.value.stage.Copied? || st.worker.value.stage.Waiting?) ==> st.dest.rows == [])
    && (SyncRuns(st) ==>
          SyncRows(log, st.dest.rows, Seek(log, st.worker.value.stage.snapshot), st.worker.value.phase.lsn, SyncStreamOf(st)))
  }

  /** The same for the apply worker, from the transaction on from which it owns the table. */
  ghost predicate ApplyAccount(log: seq<Transaction>, st: State)
    requires Shape(log, st)
  {
    st.apply.Some? ==>
      && (!Handed(Visible(st)) ==> PendingRows(log, st.apply.value) == [])
      && (Handed(Visible(st)) ==> ApplyRows(log, st.dest, st.apply.value, OwnedFrom(log, st)))
      && (Visible(st).SyncDone? && Current(st).Ready? ==> Seek(log, Visible(st).lsn) <= st.apply.value.next)
  }

  ghost predicate Once(log: seq<Transaction>, st: State) {
    Shape(log, st) && Untroubled(st) && SyncAccount(log, st) && ApplyAccount(log, st)
  }

  lemma SeekAtMost(log: seq<Transaction>, lsn: Lsn, n: nat)
    requires ValidLog(log) && n <= |log|
    requires forall i :: n <= i < |log| ==> lsn <= log[i].commitLsn
    ensures Seek(log, lsn) <= n
  {
    var m := Seek(log, lsn);
    assert forall i :: 0 <= i < m ==> log[i].commitLsn < lsn;
    assert n < |log| ==> lsn <= log[n].commitLsn;
  }

  lemma SeekAtLeast(log: seq<Transaction>, lsn: Lsn, n: nat)
    requires ValidLog(log) && 0 < n <= |log| && log[n - 1].commitLsn < lsn
    ensures n <= Seek(log, lsn)
  {
  }

  lemma MarkReadyOnce(log: seq<Transaction>, st: State)
    requires ValidLog(log) && Once(log, st) && st.apply.Some? && Visible(st).SyncDone?
    requires Visible(st).lsn <= st.apply.value.received
    ensures Once(log, Store(st, Ready))
  {
    SeekAtMost(log, Visible(st).lsn, st.apply.value.next);
  }

  lemma StartCatchupOnce(log: seq<Transaction>, st: State, lsn: Lsn)
    requires Once(log, st) && st.apply.Some? && st.worker.Some? && st.worker.value.phase.SyncWait?
    requires st.apply.value.received <= lsn && st.apply.value.ordinal == 0
    ensures Once(log, st.(worker := Some(st.worker.value.(phase := Catchup(Max(st.worker.value.phase.lsn, lsn))))))
  {
  }

  lemma SpawnOnce(log: seq<Transaction>, st: State)
    requires Once(log, st) && st.apply.Some? && st.worker.None? && NeedsCopy(Current(st))
    ensures Once(log, st.(worker := Some(Worker(Current(st), Spawned))))
  {
  }

  /** Processing the syncing table keeps the bookkeeping; marking ready needs a position past the hand-over. */
  lemma SyncTableOnce(log: seq<Transaction>, st: State, lsn: Lsn, mayCatchup: bool, mayReady: bool)
    requires ValidLog(log) && Once(log, st) && st.apply.Some? && !Blocked(st)
    requires mayCatchup ==> st.apply.value.received <= lsn && st.apply.value.ordinal == 0
    requires mayReady ==> lsn <= st.apply.value.received
    ensures Once(log, SyncTable(st, lsn, mayCatchup, mayReady))
  {
    var p := Visible(st);
    if !Current(st).Ready? {
      if p.SyncDone? {
        if mayReady && lsn >= p.lsn { MarkReadyOnce(log, st); }
      } else if st.worker.None? {
        SpawnOnce(log, st);
      } else if p.SyncWait? && mayCatchup {
        StartCatchupOnce(log, st, lsn);
      }
    }
  }

  /** Reading keeps the account, if the worker owns exactly the transactions from `first` on. */
  lemma DeliverKeepsRows(log: seq<Transaction>, dest: Destination, s: Stream, lsn: Lsn, owns: bool, first: nat)
    requires CanRead(log, s) && first <= |log| && ApplyRows(log, dest, s, first)
    requires owns <==> first <= s.next
    ensures ApplyRows(log, dest, Deliver(log, s, lsn, owns), first)
  {
    if owns {
      DeliverOwned(log, dest, s, lsn, first);
    } else {
      DeliverForeign(log, dest, s, lsn, first);
    }
  }

  lemma DeliverOwned(log: seq<Transaction>, dest: Destination, s: Stream, lsn: Lsn, first: nat)
    requires CanRead(log, s) && first <= s.next && ApplyRows(log, dest, s, first)
    ensures ApplyRows(log, dest, Deliver(log, s, lsn, true), first)
  {
    DeliverBuffers(log, s, lsn, true);
    DeliverReads(log, s, lsn, true, Seek(log, dest.snapshot.value));
  }

  lemma DeliverForeign(log: seq<Transaction>, dest: Destination, s: Stream, lsn: Lsn, first: nat)
    requires CanRead(log, s) && s.next < first <= |log| && ApplyRows(log, dest, s, first)
    ensures ApplyRows(log, dest, Deliver(log, s, lsn, false), first)
  {
    DeliverBuffers(log, s, lsn, false);
    if s.next + 1 == first { assert PartialRows(log, first, 0) == []; }
  }

  ghost function ApplyDelivers(log: seq<Transaction>, st: State, lsn: Lsn): State
    requires st.stored != [] && ApplyRuns(st) && CanRead(log, st.apply.value)
  {
    st.(apply := Some(Deliver(log, st.apply.value, lsn,
                              ApplyOwns(Visible(st), log[st.apply.value.next].commitLsn))))
  }

  lemma ApplyReplaceOnce(log: seq<Transaction>, st: State, s': Stream)
    requires Once(log, st) && st.apply.Some? && Shape(log, st.(apply := Some(s')))
    requires st.apply.value.next <= s'.next
    requires !Handed(Visible(st)) ==> PendingRows(log, s') == []
    requires Handed(Visible(st)) ==> ApplyRows(log, st.dest, s', OwnedFrom(log, st))
    ensures Once(log, st.(apply := Some(s')))
  {
  }

  lemma OwnsFrom(log: seq<Transaction>, st: State)
    requires ValidLog(log) && Shape(log, st) && st.apply.Some? && st.apply.value.next < |log| && Handed(Visible(st))
    ensures ApplyOwns(Visible(st), log[st.apply.value.next].commitLsn) <==> OwnedFrom(log, st) <= st.apply.value.next
  {
  }

  lemma ApplyDeliverOnce(log: seq<Transaction>, st: State, lsn: Lsn)
    requires ValidLog(log) && Once(log, st) && Enabled(log, st, ApplyMessage(lsn))
    requires Shape(log, ApplyDelivers(log, st, lsn))
    ensures Once(log, ApplyDelivers(log, st, lsn))
  {
    var s := st.apply.value;
    var owns := ApplyOwns(Visible(st), log[s.next].commitLsn);
    DeliverBuffers(log, s, lsn, owns);
    if Handed(Visible(st)) {
      OwnsFrom(log, st);
      DeliverKeepsRows(log, st.dest, s, lsn, owns, OwnedFrom(log, st));
    }
    ApplyReplaceOnce(log, st, Deliver(log, s, lsn, owns));
  }

  lemma ApplyDeliverShape(log: seq<Transaction>, st: State, lsn: Lsn)
    requires ValidLog(log) && Inv(log, st) && Enabled(log, st, ApplyMessage(lsn))
    ensures Shape(log, ApplyDelivers(log, st, lsn))
  {
    DeliverOk(log, st.apply.value, lsn, ApplyOwns(Visible(st), log[st.apply.value.next].commitLsn));
  }

  lemma ApplyMessageOnce(log: seq<Transaction>, st: State, lsn: Lsn)
    requires ValidLog(log) && Inv(log, st) && Once(log, st) && Enabled(log, st, ApplyMessage(lsn))
    ensures Once(log, After(log, st, ApplyMessage(lsn)))
  {
    var s := st.apply.value;
    ApplyDeliverShape(log, st, lsn);
    ApplyDeliverOnce(log, st, lsn);
    if AtCommit(log, s) {
      SyncTableOnce(log, ApplyDelivers(log, st, lsn), log[s.next].endLsn, true, false);
    }
  }

  lemma ApplyStartOnce(log: seq<Transaction>, st: State)
    requires Once(log, st) && Enabled(log, st, ApplyStart) && Shape(log, After(log, st, ApplyStart))
    ensures Once(log, After(log, st, ApplyStart))
  {
  }

  lemma ApplyFlushOnce(log: seq<Transaction>, st: State, step: Step)
    requires Once(log, st) && Enabled(log, st, step) && Shape(log, After(log, st, step))
    requires step.ApplyFlush? || step.ApplyKeepAlive?
    ensures Once(log, After(log, st, step))
  {
    var s := st.apply.value;
    FlushRows(log, s);
    if step.ApplyKeepAlive? { assert PendingEvents(KeepAlive(s, step.lsn)) == PendingEvents(s); }
    ApplyReplaceOnce(log, st, After(log, st, step).apply.value);
  }

  lemma NoRowsToWrite(log: seq<Transaction>, s: Stream)
    requires CanWrite(s) && PendingRows(log, s) == []
    ensures !IsRow(log, NextWrite(s)) && PendingRows(log, Written(s)) == []
  {
    assert PendingEvents(s) == [NextWrite(s)] + PendingEvents(Written(s));
  }

  lemma ApplyWriteRows(log: seq<Transaction>, dest: Destination, a: Stream, first: nat)
    requires PositionOk(log, a) && first <= |log| && ApplyRows(log, dest, a, first) && CanWrite(a)
    ensures ApplyRows(log, WriteTo(log, dest, NextWrite(a)), Written(a), first)
  {
    WriteRows(log, a, dest);
    if PendingRows(log, a) == [] { NoRowsToWrite(log, a); }
  }

  /** Before the hand-over the apply worker holds no row, so its writes change nothing. */
  lemma ApplyWriteSync(log: seq<Transaction>, st: State)
    requires Once(log, st) && Enabled(log, st, ApplyWrite) && Shape(log, After(log, st, ApplyWrite)) && !Handed(Visible(st))
    ensures After(log, st, ApplyWrite).dest == st.dest && PendingRows(log, Written(st.apply.value)) == []
  {
    NoRowsToWrite(log, st.apply.value);
  }

  lemma ApplyWriteOnce(log: seq<Transaction>, st: State)
    requires Once(log, st) && Enabled(log, st, ApplyWrite) && Shape(log, After(log, st, ApplyWrite))
    ensures Once(log, After(log, st, ApplyWrite))
  {
    if Handed(Visible(st)) {
      ApplyWriteHanded(log, st);
    } else {
      ApplyWriteSync(log, st);
      ApplyReplaceOnce(log, st, Written(st.apply.value));
    }
  }

  lemma SyncAccountOnceHanded(log: seq<Transaction>, st: State)
    requires Shape(log, st) && Handed(Visible(st))
    ensures SyncAccount(log, st)
  {
  }

  lemma ApplyWriteAccount(log: seq<Transaction>, st: State)
    requires Shape(log, st) && ApplyAccount(log, st) && Enabled(log, st, ApplyWrite) && Handed(Visible(st))
    requires Shape(log, After(log, st, ApplyWrite))
    ensures ApplyAccount(log, After(log, st, ApplyWrite))
  {
    ApplyWriteRows(log, st.dest, st.apply.value, OwnedFrom(log, st));
  }

  lemma ApplyWriteHanded(log: seq<Transaction>, st: State)
    requires Once(log, st) && Enabled(log, st, ApplyWrite) && Shape(log, After(log, st, ApplyWrite)) && Handed(Visible(st))
    ensures Once(log, After(log, st, ApplyWrite))
  {
    ApplyWriteAccount(log, st);
    SyncAccountOnceHanded(log, After(log, st, ApplyWrite));
  }

  lemma ApplyAckOnce(log: seq<Transaction>, st: State)
    requires Once(log, st) && Enabled(log, st, ApplyAck) && Shape(log, After(log, st, ApplyAck))
    ensures Once(log, After(log, st, ApplyAck))
  {
  }

  lemma ApplyAfterFlushOnce(log: seq<Transaction>, st: State)
    requires ValidLog(log) && Once(log, st) && Enabled(log, st, ApplyAfterFlush)
    ensures Once(log, After(log, st, ApplyAfterFlush))
  {
    var s := st.apply.value;
    var s' := s.(acked := false);
    assert PendingEvents(s') == PendingEvents(s);
    ApplyReplaceOnce(log, st, s');
    SyncTableOnce(log, st.(apply := Some(s')), s.flushed, false, true);
  }

  lemma ApplyWhenIdleOnce(log: seq<Transaction>, st: State)
    requires ValidLog(log) && Once(log, st) && Enabled(log, st, ApplyWhenIdle)
    ensures Once(log, After(log, st, ApplyWhenIdle))
  {
    SyncTableOnce(log, st, EffectiveFlush(st.apply.value), true, true);
  }

  lemma SyncDeliverRows(log: seq<Transaction>, rows: seq<Event>, from: nat, target: Lsn, s: Stream, lsn: Lsn)
    requires ValidLog(log) && PositionOk(log, s) && SyncRows(log, rows, from, target, s)
    requires CanRead(log, s) && MessageLsn(log, s, lsn) && !(Idle(s) && s.received >= target)
    ensures var s' := Deliver(log, s, lsn, true).(
        exiting := AtCommit(log, s) && log[s.next].endLsn >= target);
      s'.next <= |log| && SyncRows(log, rows, from, target, s')
  {
    var d := Deliver(log, s, lsn, true);
    var s' := d.(exiting := AtCommit(log, s) && log[s.next].endLsn >= target);
    SyncDeliverCounts(log, rows, from, s, lsn);
    assert PendingEvents(s') == PendingEvents(d);
    SyncDeliverTarget(log, target, s, lsn);
  }

  lemma SyncDeliverCounts(log: seq<Transaction>, rows: seq<Event>, from: nat, s: Stream, lsn: Lsn)
    requires CanRead(log, s) && from <= s.next && rows + PendingRows(log, s) == RowsUpTo(log, from, s.next, s.ordinal)
    ensures var d := Deliver(log, s, lsn, true);
      rows + PendingRows(log, d) == RowsUpTo(log, from, d.next, d.ordinal)
  {
    DeliverBuffers(log, s, lsn, true);
    DeliverReads(log, s, lsn, true, from);
  }

  lemma SyncDeliverTarget(log: seq<Transaction>, target: Lsn, s: Stream, lsn: Lsn)
    requires ValidLog(log) && PositionOk(log, s) && !s.exiting && TargetAhead(s, target)
    requires CanRead(log, s) && MessageLsn(log, s, lsn) && !(Idle(s) && s.received >= target)
    ensures var exiting := AtCommit(log, s) && log[s.next].endLsn >= target;
      var s' := Deliver(log, s, lsn, true).(exiting := exiting);
      if exiting then TargetRead(log, s', target) else TargetAhead(s', target)
  {
  }

  lemma SyncFlushRows(log: seq<Transaction>, rows: seq<Event>, from: nat, target: Lsn, s: Stream)
    requires PositionOk(log, s) && SyncRows(log, rows, from, target, s) && !s.acked
    ensures SyncRows(log, rows, from, target, TryFlush(s))
  {
    FlushRows(log, s);
  }

  lemma SyncAckRows(log: seq<Transaction>, rows: seq<Event>, from: nat, target: Lsn, s: Stream, progress: Option<Lsn>)
    requires PositionOk(log, s) && SyncRows(log, rows, from, target, s) && CanAck(s)
    requires AtMost(progress, s.flushed)
    ensures SyncRows(log, rows, from, target, Acked(s, progress))
  {
  }

  lemma SyncWriteRows(log: seq<Transaction>, dest: Destination, from: nat, target: Lsn, s: Stream)
    requires PositionOk(log, s) && SyncRows(log, dest.rows, from, target, s) && CanWrite(s)
    ensures SyncRows(log, WriteTo(log, dest, NextWrite(s)).rows, from, target, Written(s))
  {
    WriteRows(log, s, dest);
  }

  /** Replacing the sync stream, and the rows it has written, keeps everything else. */
  lemma SyncReplaceOnce(log: seq<Transaction>, st: State, s': Stream, st': State)
    requires Once(log, st) && SyncRuns(st) && Shape(log, st')
    requires st' == SetSync(st, s').(dest := st'.dest, syncProgress := st'.syncProgress)
    requires st'.dest.snapshot == st.dest.snapshot
    requires SyncRows(log, st'.dest.rows, Seek(log, st.worker.value.stage.snapshot), st.worker.value.phase.lsn, s')
    ensures Once(log, st')
  {
  }

  lemma SyncMessageOnce(log: seq<Transaction>, st: State, lsn: Lsn)
    requires ValidLog(log) && Once(log, st) && Enabled(log, st, SyncMessage(lsn))
    requires Shape(log, After(log, st, SyncMessage(lsn)))
    ensures Once(log, After(log, st, SyncMessage(lsn)))
  {
    var w := st.worker.value;
    SyncDeliverRows(log, st.dest.rows, Seek(log, w.stage.snapshot), w.phase.lsn, SyncStreamOf(st), lsn);
    var st' := After(log, st, SyncMessage(lsn));
    SyncReplaceOnce(log, st, SyncStreamOf(st'), st');
  }

  lemma SyncFlushOnce(log: seq<Transaction>, st: State, step: Step)
    requires Once(log, st) && Enabled(log, st, step) && Shape(log, After(log, st, step))
    requires step.SyncKeepAlive? || step.SyncFlush?
    ensures Once(log, After(log, st, step))
  {
    var w, s := st.worker.value, SyncStreamOf(st);
    var st' := After(log, st, step);
    if step.SyncKeepAlive? {
      assert PendingEvents(KeepAlive(s, step.lsn)) == PendingEvents(s);
    } else {
      SyncFlushRows(log, st.dest.rows, Seek(log, w.stage.snapshot), w.phase.lsn, s);
    }
    SyncReplaceOnce(log, st, SyncStreamOf(st'), st');
  }

  lemma SyncWriteOnce(log: seq<Transaction>, st: State)
    requires Once(log, st) && Enabled(log, st, SyncWrite) && Shape(log, After(log, st, SyncWrite))
    ensures Once(log, After(log, st, SyncWrite))
  {
    var w, s := st.worker.value, SyncStreamOf(st);
    SyncWriteRows(log, st.dest, Seek(log, w.stage.snapshot), w.phase.lsn, s);
    SyncReplaceOnce(log, st, Written(s), After(log, st, SyncWrite));
  }

  lemma SyncAckOnce(log: seq<Transaction>, st: State)
    requires Once(log, st) && Enabled(log, st, SyncAck) && Shape(log, After(log, st, SyncAck))
    ensures Once(log, After(log, st, SyncAck))
  {
    var w, s := st.worker.value, SyncStreamOf(st);
    SyncAckRows(log, st.dest.rows, Seek(log, w.stage.snapshot), w.phase.lsn, s, st.syncProgress);
    SyncReplaceOnce(log, st, Acked(s, st.syncProgress), After(log, st, SyncAck));
  }

  /** An apply worker that has not read past `lsn` takes over at the transactions from `lsn` on. */
  lemma TakeOver(log: seq<Transaction>, dest: Destination, a: Stream, lsn: Lsn)
    requires ValidLog(log) && PositionOk(log, a) && a.received <= lsn && a.ordinal == 0
    requires PendingRows(log, a) == []
    requires dest.snapshot.Some? && dest.snapshot.value <= lsn
    requires dest.rows == AllRows(log, Seek(log, dest.snapshot.value), Seek(log, lsn))
    ensures ApplyRows(log, dest, a, Seek(log, lsn))
  {
  }

  /** The hand-over: the table-sync worker has written every row before `lsn` and nothing else. */
  lemma HandOver(log: seq<Transaction>, st: State, lsn: Lsn)
    requires ValidLog(log) && Once(log, st) && SyncRuns(st) && st.worker.value.phase.lsn <= lsn
    requires Shape(log, CompleteCatchup(st, lsn, true))
    requires st.dest.rows == AllRows(log, Seek(log, st.worker.value.stage.snapshot), Seek(log, lsn))
    ensures Once(log, CompleteCatchup(st, lsn, true))
  {
    TakeOver(log, st.dest, st.apply.value, lsn);
  }

  lemma NothingPending(log: seq<Transaction>, rows: seq<Event>, from: nat, target: Lsn, s: Stream, lsn: Lsn)
    requires ValidLog(log) && PositionOk(log, s) && SyncRows(log, rows, from, target, s)
    requires s.batch.events == [] && s.inflight.None? && s.ordinal == 0
    requires s.next > 0 ==> log[s.next - 1].commitLsn < lsn
    requires lsn <= s.received
    ensures rows == AllRows(log, from, Seek(log, lsn))
  {
    assert PendingEvents(s) == [];
    assert PartialRows(log, s.next, 0) == [];
    SeekAtMost(log, lsn, s.next);
    if s.next > 0 { SeekAtLeast(log, lsn, s.next); }
    assert rows == rows + PendingRows(log, s);
  }

  lemma SyncWhenIdleOnce(log: seq<Transaction>, st: State)
    requires ValidLog(log) && Once(log, st) && Enabled(log, st, SyncWhenIdle(true))
    requires Shape(log, After(log, st, SyncWhenIdle(true)))
    ensures Once(log, After(log, st, SyncWhenIdle(true)))
  {
    var w, s := st.worker.value, SyncStreamOf(st);
    NothingPending(log, st.dest.rows, Seek(log, w.stage.snapshot), w.phase.lsn, s, s.received);
    HandOver(log, st, s.received);
  }

  lemma SyncAfterFlushOnce(log: seq<Transaction>, st: State)
    requires ValidLog(log) && Once(log, st) && Enabled(log, st, SyncAfterFlush(true))
    requires Shape(log, After(log, st, SyncAfterFlush(true)))
    ensures Once(log, After(log, st, SyncAfterFlush(true)))
  {
    if SyncStreamOf(st).flushed < st.worker.value.phase.lsn {
      SyncGoesOnOnce(log, st);
    } else {
      SyncHandsOverOnce(log, st);
    }
  }

  lemma SyncGoesOnOnce(log: seq<Transaction>, st: State)
    requires Once(log, st) && Enabled(log, st, SyncAfterFlush(true)) && SyncStreamOf(st).flushed < st.worker.value.phase.lsn
    requires Shape(log, After(log, st, SyncAfterFlush(true)))
    ensures Once(log, After(log, st, SyncAfterFlush(true)))
  {
    var s' := SyncStreamOf(st).(acked := false);
    assert PendingEvents(s') == PendingEvents(SyncStreamOf(st));
    SyncReplaceOnce(log, st, s', SetSync(st, s'));
  }

  lemma SyncHandsOverOnce(log: seq<Transaction>, st: State)
    requires ValidLog(log) && Once(log, st) && Enabled(log, st, SyncAfterFlush(true))
    requires SyncStreamOf(st).flushed >= st.worker.value.phase.lsn
    requires Shape(log, After(log, st, SyncAfterFlush(true)))
    ensures Once(log, After(log, st, SyncAfterFlush(true)))
  {
    var w, s := st.worker.value, SyncStreamOf(st);
    NothingPending(log, st.dest.rows, Seek(log, w.stage.snapshot), w.phase.lsn, s, s.flushed);
    HandOver(log, st, s.flushed);
  }

  lemma SyncCopyOnce(log: seq<Transaction>, st: State, step: Step)
    requires Once(log, st) && Enabled(log, st, step) && Shape(log, After(log, st, step))
    requires step.SyncDrop? || step.SyncClear? || step.SyncCopy? || step.SyncCopied? || step.SyncAwait?
    ensures Once(log, After(log, st, step))
  {
  }

  lemma SyncStreamOnce(log: seq<Transaction>, st: State)
    requires Once(log, st) && Enabled(log, st, SyncStream) && Shape(log, After(log, st, SyncStream))
    ensures Once(log, After(log, st, SyncStream))
  {
  }

  lemma ExitOnce(log: seq<Transaction>, st: State, step: Step)
    requires Once(log, st) && Enabled(log, st, step) && Shape(log, After(log, st, step))
    requires step.ApplyStatus? || (step.SyncExit? && InStage(st, Finished))
    ensures Once(log, After(log, st, step))
  {
  }

  lemma ApplySideOnce(log: seq<Transaction>, st: State, step: Step)
    requires ValidLog(log) && Inv(log, st) && Once(log, st) && Enabled(log, st, step) && Inv(log, After(log, st, step))
    requires step.ApplyStart? || step.ApplyMessage? || step.ApplyKeepAlive? || step.ApplyFlush? || step.ApplyWrite?
          || step.ApplyAck? || step.ApplyAfterFlush? || step.ApplyWhenIdle?
    ensures Once(log, After(log, st, step))
  {
    match step
    case ApplyStart => ApplyStartOnce(log, st);
    case ApplyMessage(lsn) => ApplyMessageOnce(log, st, lsn);
    case ApplyKeepAlive(_) => ApplyFlushOnce(log, st, step);
    case ApplyFlush => ApplyFlushOnce(log, st, step);
    case ApplyWrite => ApplyWriteOnce(log, st);
    case ApplyAck => ApplyAckOnce(log, st);
    case ApplyAfterFlush => ApplyAfterFlushOnce(log, st);
    case ApplyWhenIdle => ApplyWhenIdleOnce(log, st);
  }

  lemma SyncSideOnce(log: seq<Transaction>, st: State, step: Step)
    requires ValidLog(log) && Once(log, st) && Enabled(log, st, step) && Shape(log, After(log, st, step))
    requires step.SyncMessage? || step.SyncKeepAlive? || step.SyncFlush? || step.SyncWrite? || step.SyncAck?
          || step == SyncAfterFlush(true) || step == SyncWhenIdle(true)
    ensures Once(log, After(log, st, step))
  {
    match step
    case SyncMessage(lsn) => SyncMessageOnce(log, st, lsn);
    case SyncKeepAlive(_) => SyncFlushOnce(log, st, step);
    case SyncFlush => SyncFlushOnce(log, st, step);
    case SyncWrite => SyncWriteOnce(log, st);
    case SyncAck => SyncAckOnce(log, st);
    case SyncAfterFlush(_) => SyncAfterFlushOnce(log, st);
    case SyncWhenIdle(_) => SyncWhenIdleOnce(log, st);
  }

  lemma StepOnce(log: seq<Transaction>, st: State, step: Step)
    requires ValidLog(log) && Inv(log, st) && Once(log, st) && Enabled(log, st, step) && Undisturbed(st, step)
    requires Inv(log, After(log, st, step))
    ensures Once(log, After(log, st, step))
  {
    if step.SyncDrop? || step.SyncClear? || step.SyncCopy? || step.SyncCopied? || step.SyncAwait? {
      SyncCopyOnce(log, st, step);
    } else if step.SyncStream? {
      SyncStreamOnce(log, st);
    } else if step.ApplyStatus? || step.SyncExit? {
      ExitOnce(log, st, step);
    } else if step.ApplyStart? || step.ApplyMessage? || step.ApplyKeepAlive? || step.ApplyFlush? || step.ApplyWrite?
           || step.ApplyAck? || step.ApplyAfterFlush? || step.ApplyWhenIdle? {
      ApplySideOnce(log, st, step);
    } else {
      SyncSideOnce(log, st, step);
    }
  }

  lemma {:induction false} RunOnce(log: seq<Transaction>, st: State, steps: seq<Step>)
    requires ValidLog(log) && Inv(log, st) && Once(log, st)
    requires CanRun(log, st, steps) && UndisturbedRun(log, st, steps)
    ensures Inv(log, Final(log, st, steps)) && Once(log, Final(log, st, steps))
    decreases |steps|
  {
    if steps != [] {
      StepInv(log, st, steps[0]);
      StepOnce(log, st, steps[0]);
      RunOnce(log, After(log, st, steps[0]), steps[1..]);
    }
  }

  /**
    At every state of an undisturbed run from the copy on, also while the table-sync worker
    catches up, the rows written so far are an initial piece of the rows committed since the
    snapshot, in commit order and each once; with the apply worker idle past the hand-over
    they are all the rows it has read.
  */
  lemma ExactlyOnce(log: seq<Transaction>, st: State, steps: seq<Step>)
    requires ValidLog(log) && Initial(st)
    requires CanRun(log, st, steps) && UndisturbedRun(log, st, steps)
    ensures var last := Final(log, st, steps);
      && last.stored != []
      && (CopyTaken(last) ==>
            && last.dest.snapshot.Some?
            && last.dest.rows <= AllRows(log, Seek(log, last.dest.snapshot.value), |log|))
      && (Handed(Visible(last)) ==>
            && CopyTaken(last)
            && last.apply.Some?
            && last.apply.value.next <= |log|
            && (Idle(last.apply.value) && (Visible(last).SyncDone? ==> Visible(last).lsn <= last.apply.value.received) ==>
                  last.dest.rows == AllRows(log, Seek(log, last.dest.snapshot.value), last.apply.value.next)))
  {
    InitialInv(log, st);
    RunOnce(log, st, steps);
    var last := Final(log, st, steps);
    if Handed(Visible(last)) {
      AppliedPrefix(log, last);
    } else if CopyTaken(last) {
      CopiedPrefix(log, last);
    }
  }

  lemma {:induction false} CopiedPrefix(log: seq<Transaction>, st: State)
    requires Once(log, st) && !Handed(Visible(st)) && CopyTaken(st)
    ensures st.dest.snapshot.Some?
    ensures st.dest.rows <= AllRows(log, Seek(log, st.dest.snapshot.value), |log|)
  {
    if SyncRuns(st) {
      RowsUpToPrefix(log, Seek(log, st.dest.snapshot.value), SyncStreamOf(st).next, SyncStreamOf(st).ordinal);
    }
  }

  lemma {:induction false} AppliedPrefix(log: seq<Transaction>, st: State)
    requires ValidLog(log) && Once(log, st) && Handed(Visible(st))
    ensures st.apply.Some? && st.dest.snapshot.Some?
    ensures st.dest.rows <= AllRows(log, Seek(log, st.dest.snapshot.value), |log|)
    ensures Idle(st.apply.value) && (Visible(st).SyncDone? ==> Visible(st).lsn <= st.apply.value.received) ==>
      st.dest.rows == AllRows(log, Seek(log, st.dest.snapshot.value), st.apply.value.next)
  {
    var a := st.apply.value;
    var from := Seek(log, st.dest.snapshot.value);
    if a.next < OwnedFrom(log, st) {
      AllRowsPrefix(log, from, OwnedFrom(log, st), |log|);
    } else {
      RowsUpToPrefix(log, from, a.next, a.ordinal);
    }
    if Idle(a) {
      assert PendingEvents(a) == [] && PartialRows(log, a.next, 0) == [];
      if Visible(st).SyncDone? && Visible(st).lsn <= a.received {
        SeekAtMost(log, Visible(st).lsn, a.next);
      }
    }
  }
}
