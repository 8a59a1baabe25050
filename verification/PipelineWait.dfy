/**
  Waiting for a pipeline to end: the worker pool collects the table-sync workers
  (crates/etl/src/workers/pool.rs), and the pipeline collects all its components
  (crates/etl/src/pipeline.rs).
*/
module PipelineWait {
  import opened Wrappers
  import opened ErrorTree

  type TableId = nat

  /** A worker is one run for one table. */
  datatype WorkerId = WorkerId(table: TableId, run: nat)

  datatype WorkerResult = Completed | Shutdown | Errored

  /** What joining a worker task yields. */
  datatype Joined =
    | Finished(id: WorkerId, result: WorkerResult)
    | Failed(id: WorkerId, error: EtlError)
    | Cancelled
    | Panicked(message: string)

  datatype Monitor = MonitorDone | MonitorCancelled | MonitorPanicked

  function WorkerPanic(message: string): EtlError {
    Single(TABLE_SYNC_WORKER_PANIC, "Table sync worker panicked", Some(message))
  }

  const MONITOR_PANIC := Single(INVALID_STATE, "Memory monitor task panicked", None)

  /** What one joined task adds to the errors. */
  function Report(j: Joined): seq<EtlError> {
    match j
    case Failed(_, error) => [error]
    case Panicked(message) => [WorkerPanic(message)]
    case _ => []
  }

  function PoolErrors(joined: seq<Joined>): seq<EtlError> {
    if joined == [] then [] else Report(joined[0]) + PoolErrors(joined[1..])
  }

  function Optional(error: Option<EtlError>): seq<EtlError> {
    if error.Some? then [error.value] else []
  }

  /** The worker reported back, so its task returned rather than being cancelled or panicking. */
  predicate Returned(joined: seq<Joined>, id: WorkerId) {
    exists j :: j in joined && (j.Finished? || j.Failed?) && j.id == id
  }

  ghost function StillListed(workers: map<TableId, WorkerId>, joined: seq<Joined>): map<TableId, WorkerId> {
    map t | t in workers && !(workers[t].table == t && Returned(joined, workers[t])) :: workers[t]
  }

  /** Drops the run from the list, if it is the one listed; another run for the table stays. */
  function Unlist(workers: map<TableId, WorkerId>, j: Joined): map<TableId, WorkerId> {
    if (j.Finished? || j.Failed?) && j.id.table in workers && workers[j.id.table] == j.id then workers - {j.id.table} else workers
  }

  /** The first `n` tasks have been joined. */
  ghost predicate Joining(before: map<TableId, WorkerId>, all: seq<Joined>, n: nat, workers: map<TableId, WorkerId>, errors: seq<EtlError>) {
    n <= |all| && workers == StillListed(before, all[..n]) && errors + PoolErrors(all[n..]) == PoolErrors(all)
  }

  lemma JoinStep(before: map<TableId, WorkerId>, all: seq<Joined>, n: nat, workers: map<TableId, WorkerId>, errors: seq<EtlError>)
    requires n < |all| && Joining(before, all, n, workers, errors)
    ensures Joining(before, all, n + 1, Unlist(workers, all[n]), errors + Report(all[n]))
  {
  }

  class Pool {
    var workers: map<TableId, WorkerId>
    var joinSet: seq<Joined>   // tasks in the order they end

    /** `wait_all`. */
    method WaitAll() returns (error: Option<EtlError>)
      modifies this
      ensures joinSet == []
      ensures workers == StillListed(old(workers), old(joinSet))
      ensures error.None? <==> PoolErrors(old(joinSet)) == []
      ensures error.Some? ==> error.value == Aggregate(PoolErrors(old(joinSet)))
    {
      var errors := [];
      ghost var all := joinSet;
      ghost var n := 0;
      assert all[..0] == [];
      while joinSet != []
        invariant n <= |all| && joinSet == all[n..]
        invariant Joining(old(workers), all, n, workers, errors)
        decreases |joinSet|
      {
        JoinStep(old(workers), all, n, workers, errors);
        var joined := joinSet[0];
        joinSet := joinSet[1..];
        if joined.Finished? || joined.Failed? {
          if joined.id.table in workers && workers[joined.id.table] == joined.id { workers := workers - {joined.id.table}; }
        }
        match joined {
          case Failed(_, err) => errors := errors + [err];
          case Panicked(message) => errors := errors + [WorkerPanic(message)];
          case _ => assert errors + [] == errors;
        }
        assert all[n..][1..] == all[n + 1..];
        n := n + 1;
      }
      assert all[..n] == all && errors + [] == errors;
      error := if errors == [] then None else Some(Aggregate(errors));
    }
  }

  function PoolError(joined: seq<Joined>): seq<EtlError> {
    if PoolErrors(joined) == [] then [] else [Aggregate(PoolErrors(joined))]
  }

  function MonitorError(monitor: Monitor): seq<EtlError> {
    if monitor.MonitorPanicked? then [MONITOR_PANIC] else []
  }

  /** Everything that went wrong, in the order it is collected. */
  function Collected(apply: Option<EtlError>, joined: seq<Joined>, destination: Option<EtlError>, monitor: Monitor): seq<EtlError> {
    Optional(apply) + PoolError(joined) + Optional(destination) + MonitorError(monitor)
  }

  class Pipeline {
    const pool: Pool
    var started: bool
    var shutdownSent: bool

    constructor (pool: Pool)
      ensures this.pool == pool && !started && !shutdownSent
    {
      this.pool := pool;
      started, shutdownSent := false, false;
    }

    /** `wait`, given how the apply worker, the destination and the memory monitor end. */
    method Wait(apply: Option<EtlError>, destination: Option<EtlError>, monitor: Monitor) returns (error: Option<EtlError>)
      modifies this, pool
      ensures !old(started) ==> error.None? && unchanged(this) && unchanged(pool)
      ensures old(started) ==> pool.joinSet == [] && pool.workers == StillListed(old(pool.workers), old(pool.joinSet))
      ensures old(started) ==> shutdownSent == (old(shutdownSent) || apply.Some?)
      ensures old(started) ==> (error.None? <==> Collected(apply, old(pool.joinSet), destination, monitor) == [])
      ensures error.Some? ==> error.value == Aggregate(Collected(apply, old(pool.joinSet), destination, monitor))
    {
      if !started { return None; }
      var errors := [];
      if apply.Some? {
        errors := errors + [apply.value];
        shutdownSent := true;
      }
      assert errors == Optional(apply);
      var workersError := pool.WaitAll();
      if workersError.Some? { errors := errors + [workersError.value]; }
      assert errors == Optional(apply) + PoolError(old(pool.joinSet));
      if destination.Some? { errors := errors + [destination.value]; }
      assert errors == Optional(apply) + PoolError(old(pool.joinSet)) + Optional(destination);
      if monitor.MonitorPanicked? { errors := errors + [MONITOR_PANIC]; }
      error := if errors != [] then Some(Aggregate(errors)) else None;
    }
  }

  predicate AnyWorkerFailed(joined: seq<Joined>) {
    exists j :: j in joined && (j.Failed? || j.Panicked?)
  }

  lemma {:induction false} PoolErrorsIffFailed(joined: seq<Joined>)
    ensures PoolErrors(joined) == [] <==> !AnyWorkerFailed(joined)
    decreases |joined|
  {
    if joined != [] {
      PoolErrorsIffFailed(joined[1..]);
      assert joined[0] in joined;
      assert forall j :: j in joined <==> j == joined[0] || j in joined[1..];
    }
  }

  predicate Broke(j: Joined) {
    j.Failed? || j.Panicked?
  }

  /** The positions of the runs that failed or panicked, in the order they ended. */
  function Broken(joined: seq<Joined>): seq<nat> {
    if joined == [] then []
    else Broken(joined[..|joined| - 1]) + if Broke(joined[|joined| - 1]) then [|joined| - 1] else []
  }

  lemma {:induction false} BrokenAreAll(joined: seq<Joined>)
    ensures forall m, n :: 0 <= m < n < |Broken(joined)| ==> Broken(joined)[m] < Broken(joined)[n]
    ensures forall i: nat :: i in Broken(joined) <==> i < |joined| && Broke(joined[i])
    decreases |joined|
  {
    if joined != [] {
      var shorter := joined[..|joined| - 1];
      BrokenAreAll(shorter);
      assert forall m :: 0 <= m < |Broken(shorter)| ==> Broken(shorter)[m] in Broken(shorter);
    }
  }

  lemma Associates(a: seq<EtlError>, b: seq<EtlError>, c: seq<EtlError>)
    ensures a + (b + c) == (a + b) + c
  {
  }

  lemma {:induction false} PoolErrorsLast(joined: seq<Joined>, j: Joined)
    ensures PoolErrors(joined + [j]) == PoolErrors(joined) + Report(j)
    decreases |joined|
  {
    if joined == [] {
      assert [j][1..] == [] && joined + [j] == [j];
      assert PoolErrors([j]) == Report(j) + PoolErrors([]);
    } else {
      assert (joined + [j])[1..] == joined[1..] + [j];
      PoolErrorsLast(joined[1..], j);
      Associates(Report(joined[0]), PoolErrors(joined[1..]), Report(j));
    }
  }

  predicate IsReportOf(j: Joined, e: EtlError) {
    if j.Failed? then e == j.error
    else j.Panicked? && e.Single? && e.kind == ErrorKind("TableSyncWorkerPanic") && e.detail == Some(j.message)
  }

  lemma ReportIs(j: Joined)
    ensures |Report(j)| == (if Broke(j) then 1 else 0) && (Broke(j) ==> IsReportOf(j, Report(j)[0]))
  {
  }

  /** The pool reports exactly, in order, the error of each failed task and a worker panic for each one that panicked. */
  lemma {:induction false} PoolErrorsByIndex(joined: seq<Joined>)
    ensures |PoolErrors(joined)| == |Broken(joined)|
    ensures forall m :: 0 <= m < |Broken(joined)| ==>
      Broken(joined)[m] < |joined| && IsReportOf(joined[Broken(joined)[m]], PoolErrors(joined)[m])
    decreases |joined|
  {
    if joined != [] {
      var shorter, j := joined[..|joined| - 1], joined[|joined| - 1];
      assert joined == shorter + [j];
      PoolErrorsByIndex(shorter);
      PoolErrorsLast(shorter, j);
      ReportIs(j);
    }
  }

  lemma KindsOne(e: EtlError)
    ensures KindsAll([e]) == Kinds(e)
  {
  }

  lemma KindsOptional(e: Option<EtlError>)
    ensures KindsAll(Optional(e)) == if e.Some? then Kinds(e.value) else []
  {
  }

  lemma KindsPool(joined: seq<Joined>)
    ensures KindsAll(PoolError(joined)) == KindsAll(PoolErrors(joined))
  {
  }

  /**
    Waiting reports success exactly if no component failed; otherwise every kind of every
    failure is reported once, in the order apply worker, table-sync workers as they ended,
    destination, memory monitor.
  */
  lemma NothingSwallowed(apply: Option<EtlError>, joined: seq<Joined>, destination: Option<EtlError>, monitor: Monitor)
    ensures var all := Collected(apply, joined, destination, monitor);
      && (all == [] <==> apply.None? && !AnyWorkerFailed(joined) && destination.None? && !monitor.MonitorPanicked?)
      && Kinds(Aggregate(all)) ==
           (if apply.Some? then Kinds(apply.value) else [])
           + KindsAll(PoolErrors(joined))
           + (if destination.Some? then Kinds(destination.value) else [])
           + (if monitor.MonitorPanicked? then [INVALID_STATE] else [])
  {
    var a, c := Optional(apply), Optional(destination);
    var b, d := PoolError(joined), MonitorError(monitor);
    PoolErrorsIffFailed(joined);
    AggregateKeepsKinds(a + b + c + d);
    KindsConcat(a + b + c, d);
    KindsConcat(a + b, c);
    KindsConcat(a, b);
    KindsOptional(apply);
    KindsPool(joined);
    KindsOptional(destination);
    KindsOne(MONITOR_PANIC);
  }

  predicate AllProper(errors: seq<EtlError>) {
    forall i :: 0 <= i < |errors| ==> Proper(errors[i])
  }

  lemma {:induction false} PoolErrorsProper(joined: seq<Joined>)
    requires forall j :: j in joined && j.Failed? ==> Proper(j.error)
    ensures AllProper(PoolErrors(joined))
    decreases |joined|
  {
    if joined != [] {
      PoolErrorsProper(joined[1..]);
      assert joined[0] in joined;
    }
  }

  /** The reported error nests no empty or one-element aggregate, so its kind is its first kind. */
  lemma ReportIsProper(apply: Option<EtlError>, joined: seq<Joined>, destination: Option<EtlError>, monitor: Monitor)
    requires AllProper(Optional(apply)) && AllProper(Optional(destination))
    requires forall j :: j in joined && j.Failed? ==> Proper(j.error)
    requires Collected(apply, joined, destination, monitor) != []
    ensures var e := Aggregate(Collected(apply, joined, destination, monitor));
            Proper(e) && Kinds(e) != [] && Kind(e) == Kinds(e)[0]
  {
    PoolErrorsProper(joined);
    AggregateKeepsKinds(PoolErrors(joined));
    var all := Collected(apply, joined, destination, monitor);
    assert AllProper(all);
    AggregateKeepsKinds(all);
    ProperReachesSingle(Aggregate(all));
    KindByLeftmost(Aggregate(all));
  }
}
