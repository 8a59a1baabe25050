/**
  One run of the apply loop over a logical replication stream
  (crates/etl/src/replication/apply.rs, `ApplyLoopState`).

  The source log is projected onto one table: a transaction has a commit
  position, the position just after its commit record, and the number of row
  messages it holds for that table. Inside a transaction messages are numbered
  from zero: 0 is BEGIN, `1..rows` are the table's rows, `rows + 1` is COMMIT.
*/
module ApplyStream {
  import opened Wrappers

  type Lsn = nat

  datatype Transaction = Transaction(commitLsn: Lsn, endLsn: Lsn, rows: nat)

  datatype Event = Event(txn: nat, ordinal: nat)

  /** Transactions arrive in commit order and their commit records do not overlap. */
  ghost predicate ValidLog(log: seq<Transaction>) {
    && (forall i :: 0 <= i < |log| ==> log[i].commitLsn < log[i].endLsn)
    && (forall i, j :: 0 <= i < j < |log| ==> log[i].endLsn <= log[j].commitLsn)
  }

  predicate IsRow(log: seq<Transaction>, e: Event) {
    e.txn < |log| && 1 <= e.ordinal <= log[e.txn].rows
  }

  /** The first transaction a stream started at `lsn` delivers. */
  function Seek(log: seq<Transaction>, lsn: Lsn): (n: nat)
    ensures n <= |log|
    ensures n < |log| ==> lsn <= log[n].commitLsn
    ensures forall i :: 0 <= i < n ==> log[i].commitLsn < lsn
  {
    SeekFrom(log, lsn, 0)
  }

  function SeekFrom(log: seq<Transaction>, lsn: Lsn, from: nat): (n: nat)
    requires from <= |log|
    requires forall i :: 0 <= i < from ==> log[i].commitLsn < lsn
    ensures from <= n <= |log|
    ensures n < |log| ==> lsn <= log[n].commitLsn
    ensures forall i :: 0 <= i < n ==> log[i].commitLsn < lsn
    decreases |log| - from
  {
    if from < |log| && log[from].commitLsn < lsn then SeekFrom(log, lsn, from + 1) else from
  }

  /** Buffered events and the end of the last commit among them, if any. */
  datatype Batch = Batch(events: seq<Event>, commitEnd: Option<Lsn>)

  const EMPTY_BATCH := Batch([], None)

  /** A dispatched batch; the destination has taken the first `written` events. */
  datatype Flush = Flush(batch: Batch, written: nat)

  datatype Stream = Stream(
    next: nat,              // transaction being delivered, or delivered next
    ordinal: nat,           // messages of that transaction already delivered
    received: Lsn,          // last_received_lsn
    flushed: Lsn,           // last_flush_lsn
    batch: Batch,           // events_batch and last_commit_end_lsn
    inflight: Option<Flush>, // pending_flush_result
    paused: bool,           // processing_paused
    acked: bool,            // a flush with a commit end was acknowledged, tables not yet processed
    exiting: bool           // exit_intent is set
  )

  function StartAt(log: seq<Transaction>, lsn: Lsn): Stream {
    Stream(Seek(log, lsn), 0, lsn, lsn, EMPTY_BATCH, None, false, false, false)
  }

  predicate Idle(s: Stream) {
    s.ordinal == 0 && s.batch.events == [] && s.inflight.None?
  }

  function EffectiveFlush(s: Stream): Lsn {
    if Idle(s) then s.received else s.flushed
  }

  predicate CanRead(log: seq<Transaction>, s: Stream) {
    && !s.paused && !s.acked && !s.exiting
    && s.next < |log| && s.ordinal <= log[s.next].rows + 1
  }

  predicate AtCommit(log: seq<Transaction>, s: Stream)
    requires s.next < |log|
  {
    s.ordinal == log[s.next].rows + 1
  }

  /** A COMMIT message carries the end position; earlier messages stay at or below the commit. */
  predicate MessageLsn(log: seq<Transaction>, s: Stream, lsn: Lsn)
    requires s.next < |log|
  {
    if AtCommit(log, s) then lsn == log[s.next].endLsn else lsn <= log[s.next].commitLsn
  }

  /** One logical message. Row messages are kept only when this worker owns the table. */
  function Deliver(log: seq<Transaction>, s: Stream, lsn: Lsn, owns: bool): Stream
    requires CanRead(log, s)
  {
    var event := Event(s.next, s.ordinal);
    var received := Max(s.received, lsn);
    if AtCommit(log, s) then
      var end := log[s.next].endLsn;
      s.(received := received, next := s.next + 1, ordinal := 0,
         batch := Batch(s.batch.events + [event], Some(Max(s.batch.commitEnd.GetOr(0), end))))
    else
      var events := if s.ordinal == 0 || owns then s.batch.events + [event] else s.batch.events;
      s.(received := received, ordinal := s.ordinal + 1, batch := s.batch.(events := events))
  }

  /** Keepalives report a position no later than the next undelivered commit. */
  predicate KeepAliveLsn(log: seq<Transaction>, s: Stream, lsn: Lsn) {
    s.next < |log| ==> lsn <= log[s.next].commitLsn
  }

  function KeepAlive(s: Stream, lsn: Lsn): Stream {
    s.(received := Max(s.received, lsn))
  }

  /** `flush_batch`: dispatch the batch, or wait behind the batch already in flight. */
  function TryFlush(s: Stream): Stream {
    if s.batch.events == [] then s
    else if s.inflight.Some? then s.(paused := true)
    else s.(inflight := Some(Flush(s.batch, 0)), batch := EMPTY_BATCH)
  }

  predicate CanWrite(s: Stream) {
    s.inflight.Some? && s.inflight.value.written < |s.inflight.value.batch.events|
  }

  function NextWrite(s: Stream): Event
    requires CanWrite(s)
  {
    s.inflight.value.batch.events[s.inflight.value.written]
  }

  function Written(s: Stream): Stream
    requires CanWrite(s)
  {
    s.(inflight := Some(s.inflight.value.(written := s.inflight.value.written + 1)))
  }

  predicate CanAck(s: Stream) {
    && !s.acked && s.inflight.Some?
    && s.inflight.value.written == |s.inflight.value.batch.events|
  }

  /** The stored progress row only moves forward (`upsert_replication_progress`). */
  function Upsert(progress: Option<Lsn>, s: Stream): Option<Lsn>
    requires CanAck(s)
  {
    var end := s.inflight.value.batch.commitEnd;
    if end.Some? then Some(Max(progress.GetOr(0), end.value)) else progress
  }

  /** `handle_flush_result`: the batch is durable; progress moves only at a commit. */
  function Acked(s: Stream, progress: Option<Lsn>): Stream
    requires CanAck(s)
  {
    var s' := s.(inflight := None, paused := false);
    if s.inflight.value.batch.commitEnd.Some? then
      s'.(acked := true, flushed := Max(s.flushed, Upsert(progress, s).GetOr(0)))
    else s'
  }

  predicate Delivered(s: Stream, e: Event) {
    e.txn < s.next || (e.txn == s.next && e.ordinal < s.ordinal)
  }

  predicate Pending(s: Stream, e: Event) {
    || e in s.batch.events
    || (&& s.inflight.Some? && s.inflight.value.written <= |s.inflight.value.batch.events|
        && e in s.inflight.value.batch.events[s.inflight.value.written..])
  }

  ghost predicate EventsOk(log: seq<Transaction>, s: Stream, events: seq<Event>) {
    forall e :: e in events ==>
      e.txn < |log| && Delivered(s, e) && s.flushed <= log[e.txn].commitLsn
  }

  /** The received position separates the delivered transactions from the others. */
  ghost predicate PositionOk(log: seq<Transaction>, s: Stream) {
    && s.next <= |log|
    && (s.next == |log| ==> s.ordinal == 0)
    && (s.next < |log| ==> s.ordinal <= log[s.next].rows + 1)
    && (forall i :: 0 <= i < s.next ==> log[i].commitLsn < s.received)
    && (forall i :: s.next <= i < |log| ==> s.received <= log[i].commitLsn)
    && s.flushed <= s.received
  }

  /** What every step of a stream keeps. */
  ghost predicate StreamOk(log: seq<Transaction>, s: Stream) {
    && PositionOk(log, s)
    && EventsOk(log, s, s.batch.events)
    && (s.batch.commitEnd.Some? ==> s.batch.commitEnd.value <= s.received)
    && (s.inflight.Some? ==> InflightOk(log, s, s.inflight.value))
  }

  ghost predicate InflightOk(log: seq<Transaction>, s: Stream, f: Flush) {
    && f.written <= |f.batch.events|
    && EventsOk(log, s, f.batch.events)
    && (f.batch.commitEnd.Some? ==>
          && f.batch.commitEnd.value <= s.received
          && (forall e :: e in s.batch.events ==> e.txn < |log| && f.batch.commitEnd.value <= log[e.txn].commitLsn))
  }

  lemma StartAtOk(log: seq<Transaction>, lsn: Lsn)
    requires ValidLog(log)
    ensures StreamOk(log, StartAt(log, lsn))
  {
  }

  lemma DeliverOk(log: seq<Transaction>, s: Stream, lsn: Lsn, owns: bool)
    requires ValidLog(log) && StreamOk(log, s) && CanRead(log, s) && MessageLsn(log, s, lsn)
    ensures StreamOk(log, Deliver(log, s, lsn, owns))
  {
  }

  lemma KeepAliveOk(log: seq<Transaction>, s: Stream, lsn: Lsn)
    requires ValidLog(log) && StreamOk(log, s) && KeepAliveLsn(log, s, lsn)
    ensures StreamOk(log, KeepAlive(s, lsn))
  {
  }

  lemma TryFlushOk(log: seq<Transaction>, s: Stream)
    requires StreamOk(log, s)
    ensures StreamOk(log, TryFlush(s))
    ensures forall e :: Pending(s, e) ==> Pending(TryFlush(s), e)
  {
  }

  /** Writing moves one event from the pipeline to the destination and keeps the rest. */
  lemma WrittenOk(log: seq<Transaction>, s: Stream)
    requires StreamOk(log, s) && CanWrite(s)
    ensures StreamOk(log, Written(s))
    ensures forall e :: Pending(s, e) ==> e == NextWrite(s) || Pending(Written(s), e)
  {
  }

  /** The control flags carry no work. */
  lemma FlagsOk(log: seq<Transaction>, s: Stream, acked: bool, exiting: bool)
    requires StreamOk(log, s)
    ensures var s' := s.(acked := acked, exiting := exiting);
      && StreamOk(log, s')
      && (forall e :: Pending(s', e) == Pending(s, e))
      && (forall e :: Delivered(s', e) == Delivered(s, e))
  {
  }

  /** After an acknowledgement everything still buffered lies at or past the flushed position. */
  lemma AckedOk(log: seq<Transaction>, s: Stream, progress: Option<Lsn>)
    requires StreamOk(log, s) && CanAck(s)
    requires progress.Some? ==> progress.value <= s.flushed
    ensures StreamOk(log, Acked(s, progress))
    ensures Upsert(progress, s).Some? ==> Upsert(progress, s).value <= Acked(s, progress).flushed
    ensures forall e :: Pending(s, e) ==> Pending(Acked(s, progress), e)
  {
  }
}
