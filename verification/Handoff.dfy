/**
  The hand-over of one table from its table-sync worker to the apply worker:
  initial copy, catch-up, ownership switch, restarts and failures
  (crates/etl/src/replication/apply.rs, crates/etl/src/replication/table_sync.rs,
  crates/etl/src/workers/table_sync.rs, crates/etl/src/workers/apply.rs).

  Every store write, destination write, message and phase change is one step,
  so a crash may fall between any two of them.
*/
module Handoff {
  import opened Wrappers
  import opened ApplyStream

  datatype Phase =
    | Init
    | DataSync
    | FinishedCopy
    | SyncWait(lsn: Lsn)
    | Catchup(lsn: Lsn)
    | SyncDone(lsn: Lsn)
    | Ready
    | Errored

  /** Phases from which a table-sync worker (re)starts the copy. */
  predicate NeedsCopy(p: Phase) {
    p.Init? || p.DataSync? || p.FinishedCopy?
  }

  /** Phases in which the apply worker owns the table, at least from some position on. */
  predicate Handed(p: Phase) {
    p.SyncDone? || p.Ready?
  }

  /** How far a table-sync worker has come. */
  datatype Stage =
    | Spawned
    | Dropped                                  // destination table dropped, slot deleted
    | Copying                                  // copy state cleared, `DataSync` stored
    | Copied(snapshot: Lsn)                    // rows as of `snapshot` are at the destination
    | Waiting(snapshot: Lsn)                   // `SyncWait` or `Catchup`, not yet streaming
    | Streaming(snapshot: Lsn, stream: Stream)
    | Finished                                 // `SyncDone` set and stored
    | StoreFailed                              // `SyncDone` set in memory, store write failed
    | Failed                                   // `Errored` set and stored, a retry may follow
    | FailedLate                               // `Errored` stored over `SyncDone` during shutdown, no retry

  datatype Worker = Worker(phase: Phase, stage: Stage)

  /** The destination table: rows as of a snapshot position, then the rows written since. */
  datatype Destination = Destination(snapshot: Option<Lsn>, rows: seq<Event>)

  datatype State = State(
    stored: seq<Phase>,          // state store: history of the table, current phase last
    progress: Option<Lsn>,       // durable progress row of the apply worker
    confirmed: Lsn,              // confirmed flush position of the apply slot
    syncProgress: Option<Lsn>,   // durable progress row of the table-sync worker
    dest: Destination,
    apply: Option<Stream>,       // running apply loop
    worker: Option<Worker>       // active table-sync worker
  )

  predicate Initial(st: State) {
    st.stored == [Init] && st.progress.None? && st.apply.None? && st.worker.None?
  }

  function Current(st: State): Phase
    requires st.stored != []
  {
    st.stored[|st.stored| - 1]
  }

  /** The phase the apply worker goes by: the active worker's, else the stored one. */
  function Visible(st: State): Phase
    requires st.stored != []
  {
    if st.worker.Some? then st.worker.value.phase else Current(st)
  }

  function Store(st: State, p: Phase): State {
    st.(stored := st.stored + [p])
  }

  /** `should_apply_changes` of the apply worker. */
  predicate ApplyOwns(p: Phase, commitLsn: Lsn) {
    p.Ready? || (p.SyncDone? && p.lsn <= commitLsn)
  }

  /** The apply worker reads nothing while a table-sync worker is catching up. */
  predicate Blocked(st: State) {
    st.worker.Some? && st.worker.value.phase.Catchup?
  }

  /**
    `process_single_syncing_table_*` at position `lsn`: after a commit it may start
    catch-up, after a flush it may mark the table ready, when idle it may do either;
    all three start a missing worker.
  */
  function SyncTable(st: State, lsn: Lsn, mayCatchup: bool, mayReady: bool): State
    requires st.stored != []
  {
    if Current(st).Ready? || Current(st).Errored? then st
    else if st.worker.Some? then
      match st.worker.value.phase
      case SyncWait(snapshot) =>
        if mayCatchup then
          st.(worker := Some(st.worker.value.(phase := Catchup(Max(snapshot, lsn)))))
        else st
      case SyncDone(done) => if mayReady && lsn >= done then Store(st, Ready) else st
      case _ => st
    else
      match Current(st)
      case SyncDone(done) => if mayReady && lsn >= done then Store(st, Ready) else st
      case _ => st.(worker := Some(Worker(Current(st), Spawned)))
  }

  function WriteTo(log: seq<Transaction>, dest: Destination, e: Event): Destination {
    if IsRow(log, e) then dest.(rows := dest.rows + [e]) else dest
  }

  datatype Step =
    // Apply worker.
    | ApplyStart
    | ApplyStop
    | ApplyMessage(lsn: Lsn)
    | ApplyKeepAlive(lsn: Lsn)
    | ApplyFlush
    | ApplyWrite
    | ApplyAck
    | ApplyAfterFlush
    | ApplyWhenIdle
    | ApplyStatus
    // Table-sync worker.
    | SyncDrop
    | SyncClear
    | SyncCopy(lsn: Lsn)
    | SyncCopied
    | SyncAwait
    | SyncStream
    | SyncMessage(lsn: Lsn)
    | SyncKeepAlive(lsn: Lsn)
    | SyncFlush
    | SyncWrite
    | SyncAck
    | SyncAfterFlush(stores: bool)
    | SyncWhenIdle(stores: bool)
    | SyncFail
    | SyncRetry
    | SyncExit
    // The whole process.
    | Crash

  predicate ApplyRuns(st: State) {
    st.apply.Some? && !Blocked(st)
  }

  predicate InStage(st: State, stage: Stage) {
    st.worker.Some? && st.worker.value.stage == stage
  }

  predicate SyncRuns(st: State) {
    st.worker.Some? && st.worker.value.stage.Streaming? && st.worker.value.phase.Catchup?
  }

  function SyncStreamOf(st: State): Stream
    requires SyncRuns(st)
  {
    st.worker.value.stage.stream
  }

  function SetSync(st: State, s: Stream): State
    requires SyncRuns(st)
  {
    st.(worker := Some(st.worker.value.(stage := Streaming(st.worker.value.stage.snapshot, s))))
  }

  /** The catch-up target is reached while idle, so the worker finishes before reading on. */
  predicate IdleDone(st: State)
    requires SyncRuns(st)
  {
    Idle(SyncStreamOf(st)) && SyncStreamOf(st).received >= st.worker.value.phase.lsn
  }

  /** Steps that are possible in a state. */
  predicate Enabled(log: seq<Transaction>, st: State, step: Step) {
    && st.stored != []
    && match step
       case ApplyStart => st.apply.None?
       case ApplyStop => st.apply.Some?
       case ApplyMessage(lsn) =>
         ApplyRuns(st) && CanRead(log, st.apply.value) && MessageLsn(log, st.apply.value, lsn)
       case ApplyKeepAlive(lsn) =>
         && ApplyRuns(st) && !st.apply.value.paused && !st.apply.value.acked
         && KeepAliveLsn(log, st.apply.value, lsn)
       case ApplyFlush => ApplyRuns(st) && !st.apply.value.acked
       case ApplyWrite => st.apply.Some? && CanWrite(st.apply.value)
       case ApplyAck => ApplyRuns(st) && CanAck(st.apply.value)
       case ApplyAfterFlush => ApplyRuns(st) && st.apply.value.acked
       case ApplyWhenIdle => ApplyRuns(st) && !st.apply.value.acked && Idle(st.apply.value)
       case ApplyStatus => ApplyRuns(st) && !st.apply.value.acked
       case SyncDrop => InStage(st, Spawned) && NeedsCopy(st.worker.value.phase)
       case SyncClear => InStage(st, Dropped)
       case SyncCopy(_) => InStage(st, Copying)
       case SyncCopied =>
         st.worker.Some? && st.worker.value.stage.Copied? && st.worker.value.phase.DataSync?
       case SyncAwait =>
         st.worker.Some? && st.worker.value.stage.Copied? && st.worker.value.phase.FinishedCopy?
       case SyncStream =>
         st.worker.Some? && st.worker.value.stage.Waiting? && st.worker.value.phase.Catchup?
       case SyncMessage(lsn) =>
         && SyncRuns(st) && !IdleDone(st)
         && CanRead(log, SyncStreamOf(st)) && MessageLsn(log, SyncStreamOf(st), lsn)
       case SyncKeepAlive(lsn) =>
         && SyncRuns(st) && !IdleDone(st)
         && !SyncStreamOf(st).paused && !SyncStreamOf(st).acked && !SyncStreamOf(st).exiting
         && KeepAliveLsn(log, SyncStreamOf(st), lsn)
       case SyncFlush => SyncRuns(st) && !SyncStreamOf(st).acked
       case SyncWrite => SyncRuns(st) && CanWrite(SyncStreamOf(st))
       case SyncAck => SyncRuns(st) && CanAck(SyncStreamOf(st))
       case SyncAfterFlush(_) => SyncRuns(st) && SyncStreamOf(st).acked
       case SyncWhenIdle(_) =>
         SyncRuns(st) && !SyncStreamOf(st).acked && !SyncStreamOf(st).exiting && IdleDone(st)
       case SyncFail => st.worker.Some? && !st.worker.value.stage.Failed? && !st.worker.value.stage.FailedLate?
       case SyncRetry => InStage(st, Failed) && |st.stored| >= 2
       case SyncExit => st.worker.Some?
       case Crash => true
  }

  /** `try_complete_catchup`: memory first, then the store, whose write may fail. */
  function CompleteCatchup(st: State, lsn: Lsn, stores: bool): State
    requires SyncRuns(st)
  {
    if lsn < st.worker.value.phase.lsn then st
    else if stores then Store(st, SyncDone(lsn)).(worker := Some(Worker(SyncDone(lsn), Finished)))
    else st.(worker := Some(Worker(SyncDone(lsn), StoreFailed)))
  }

  function ResumeAt(st: State): Lsn {
    Max(st.progress.GetOr(0), st.confirmed)
  }

  /** The apply worker handles one message; a COMMIT also processes the syncing table. */
  function ApplyOne(log: seq<Transaction>, st: State, lsn: Lsn): State
    requires st.stored != [] && ApplyRuns(st) && CanRead(log, st.apply.value)
  {
    var s := st.apply.value;
    var txn := log[s.next];
    var st' := st.(apply := Some(Deliver(log, s, lsn, ApplyOwns(Visible(st), txn.commitLsn))));
    if AtCommit(log, s) then SyncTable(st', txn.endLsn, true, false) else st'
  }

  /** The table-sync worker handles one message; a COMMIT at the target ends intake. */
  function SyncOne(log: seq<Transaction>, st: State, lsn: Lsn): State
    requires SyncRuns(st) && CanRead(log, SyncStreamOf(st))
  {
    var s := SyncStreamOf(st);
    var s' := Deliver(log, s, lsn, true);
    var reached := AtCommit(log, s) && log[s.next].endLsn >= st.worker.value.phase.lsn;
    SetSync(st, s'.(exiting := s.exiting || reached))
  }

  function After(log: seq<Transaction>, st: State, step: Step): State
    requires Enabled(log, st, step)
  {
    match step
    case ApplyStart => st.(apply := Some(StartAt(log, ResumeAt(st))))
    case ApplyStop => st.(apply := None)
    case ApplyMessage(lsn) => ApplyOne(log, st, lsn)
    case ApplyKeepAlive(lsn) => st.(apply := Some(KeepAlive(st.apply.value, lsn)))
    case ApplyFlush => st.(apply := Some(TryFlush(st.apply.value)))
    case ApplyWrite =>
      st.(apply := Some(Written(st.apply.value)),
          dest := WriteTo(log, st.dest, NextWrite(st.apply.value)))
    case ApplyAck =>
      st.(apply := Some(Acked(st.apply.value, st.progress)),
          progress := Upsert(st.progress, st.apply.value))
    case ApplyAfterFlush =>
      SyncTable(st.(apply := Some(st.apply.value.(acked := false))), st.apply.value.flushed, false, true)
    case ApplyWhenIdle => SyncTable(st, EffectiveFlush(st.apply.value), true, true)
    case ApplyStatus => st.(confirmed := Max(st.confirmed, EffectiveFlush(st.apply.value)))
    case SyncDrop =>
      st.(dest := Destination(None, []), worker := Some(st.worker.value.(stage := Dropped)))
    case SyncClear =>
      Store(st, DataSync).(syncProgress := None, worker := Some(Worker(DataSync, Copying)))
    case SyncCopy(lsn) =>
      st.(dest := Destination(Some(lsn), []),
          worker := Some(st.worker.value.(stage := Copied(lsn))))
    case SyncCopied =>
      Store(st, FinishedCopy).(worker := Some(st.worker.value.(phase := FinishedCopy)))
    case SyncAwait =>
      var snapshot := st.worker.value.stage.snapshot;
      st.(worker := Some(Worker(SyncWait(snapshot), Waiting(snapshot))))
    case SyncStream =>
      var snapshot := st.worker.value.stage.snapshot;
      st.(worker := Some(st.worker.value.(stage := Streaming(snapshot, StartAt(log, snapshot)))))
    case SyncMessage(lsn) => SyncOne(log, st, lsn)
    case SyncKeepAlive(lsn) => SetSync(st, KeepAlive(SyncStreamOf(st), lsn))
    case SyncFlush => SetSync(st, TryFlush(SyncStreamOf(st)))
    case SyncWrite =>
      SetSync(st, Written(SyncStreamOf(st))).(dest := WriteTo(log, st.dest, NextWrite(SyncStreamOf(st))))
    case SyncAck =>
      SetSync(st, Acked(SyncStreamOf(st), st.syncProgress)).(
        syncProgress := Upsert(st.syncProgress, SyncStreamOf(st)))
    case SyncAfterFlush(stores) =>
      CompleteCatchup(SetSync(st, SyncStreamOf(st).(acked := false)), SyncStreamOf(st).flushed, stores)
    case SyncWhenIdle(stores) => CompleteCatchup(st, SyncStreamOf(st).received, stores)
    case SyncFail =>
      Store(st, Errored).(worker := Some(Worker(Errored, if InStage(st, Finished) then FailedLate else Failed)))
    case SyncRetry =>
      var previous := st.stored[|st.stored| - 2];
      st.(stored := st.stored[..|st.stored| - 1], worker := Some(Worker(previous, Spawned)))
    case SyncExit => st.(worker := None)
    case Crash => st.(apply := None, worker := None)
  }

  /** The steps can be taken one after the other from `st`. */
  ghost predicate CanRun(log: seq<Transaction>, st: State, steps: seq<Step>)
    decreases |steps|
  {
    steps == [] || (Enabled(log, st, steps[0]) && CanRun(log, After(log, st, steps[0]), steps[1..]))
  }

  ghost function Final(log: seq<Transaction>, st: State, steps: seq<Step>): State
    requires CanRun(log, st, steps)
    decreases |steps|
  {
    if steps == [] then st else Final(log, After(log, st, steps[0]), steps[1..])
  }

  /** The copy is at the destination and the table has not failed since. */
  predicate CopyTaken(st: State)
    requires st.stored != []
  {
    || Handed(Current(st))
    || (st.worker.Some? &&
        (st.worker.value.stage.Copied? || st.worker.value.stage.Waiting? || st.worker.value.stage.Streaming?
         || st.worker.value.stage.StoreFailed? || st.worker.value.stage.Finished?))
  }

  /** A row is at the destination: part of the copied snapshot or written since. */
  predicate Covered(log: seq<Transaction>, dest: Destination, e: Event)
    requires e.txn < |log|
  {
    || (dest.snapshot.Some? && log[e.txn].commitLsn < dest.snapshot.value)
    || e in dest.rows
  }

  /**
    Nothing the pipeline will not read again is missing: once the table is handed over,
    every row committed before the position the apply worker resumes from is at the
    destination, and so is every row before the hand-over position.
  */
  ghost predicate NothingLost(log: seq<Transaction>, st: State)
    requires st.stored != []
  {
    Handed(Current(st)) ==>
      forall e :: IsRow(log, e)
        && (log[e.txn].commitLsn < ResumeAt(st)
            || (Current(st).SyncDone? && log[e.txn].commitLsn < Current(st).lsn))
        ==> Covered(log, st.dest, e)
  }

  /**
    The apply worker marks the table ready although the table-sync worker's `SyncDone`
    is in memory only: its store write failed and the worker has not recorded that yet.
  */
  predicate MarksUnstored(st: State, step: Step) {
    && st.apply.Some?
    && st.worker.Some? && st.worker.value.stage.StoreFailed? && st.worker.value.phase.SyncDone?
    && (|| (step.ApplyAfterFlush? && st.apply.value.flushed >= st.worker.value.phase.lsn)
        || (step.ApplyWhenIdle? && EffectiveFlush(st.apply.value) >= st.worker.value.phase.lsn))
  }

  /** No step of the run marks the table ready on an unstored `SyncDone`. */
  ghost predicate MarksStoredOnly(log: seq<Transaction>, st: State, steps: seq<Step>)
    requires CanRun(log, st, steps)
    decreases |steps|
  {
    steps == [] ||
    (!MarksUnstored(st, steps[0]) && MarksStoredOnly(log, After(log, st, steps[0]), steps[1..]))
  }
}
