/**
  Deleting pipelines and tenants across the API database, the source databases and their
  replication slots (crates/etl-api/src/routes/pipelines.rs,
  crates/etl-api/src/routes/destinations_pipelines.rs,
  crates/etl-api/src/routes/tenants.rs, crates/etl-api/src/data/pipelines.rs). Each commit
  and each slot deletion is one step, and any step may be the last.
*/
module Deletion {
  import opened Wrappers

  type PipelineId = nat
  type SourceId = nat
  type DestinationId = nat
  type ReplicatorId = nat
  type DbId = nat

  datatype PipelineRow = PipelineRow(source: SourceId, destination: DestinationId, replicator: ReplicatorId)

  /** One tenant's rows; a source record points at a physical database. */
  datatype Api = Api(
    sources: map<SourceId, DbId>,
    destinations: set<DestinationId>,
    pipelines: map<PipelineId, PipelineRow>,
    replicators: set<ReplicatorId>
  )

  /** A source database: pipelines with stored state (none without ETL tables), and pipelines with slots. */
  datatype Db = Db(owned: bool, state: Option<set<PipelineId>>, slots: set<PipelineId>)

  datatype World = World(api: Api, dbs: map<DbId, Db>)

  const NO_ROWS := Api(map[], {}, map[], {})

  datatype Outcome = Done | PipelineNotFound | DestinationMismatch | ActivePipeline | SourceNotFound | DestinationNotFound | StepFailed

  /** Rows that pipelines refer to exist, and no replicator is shared. */
  ghost predicate Integrity(api: Api) {
    && (forall p :: p in api.pipelines ==>
          && api.pipelines[p].source in api.sources
          && api.pipelines[p].destination in api.destinations
          && api.pipelines[p].replicator in api.replicators)
    && (forall p, q :: p in api.pipelines && q in api.pipelines && api.pipelines[p].replicator == api.pipelines[q].replicator ==> p == q)
  }

  predicate InUse(api: Api, d: DestinationId) {
    exists p :: p in api.pipelines && api.pipelines[p].destination == d
  }

  /** The rows after the API transaction; the combined route also drops an unused destination. */
  function ApiAfter(api: Api, p: PipelineId, combined: bool): Api
    requires p in api.pipelines
  {
    var row := api.pipelines[p];
    var rest := api.(pipelines := api.pipelines - {p}, replicators := api.replicators - {row.replicator});
    if combined && !InUse(rest, row.destination) then rest.(destinations := rest.destinations - {row.destination}) else rest
  }

  function StateWithout(state: Option<set<PipelineId>>, ps: set<PipelineId>): Option<set<PipelineId>> {
    if state.Some? then Some(state.value - ps) else None
  }

  /** The database a pipeline's source record points at. */
  function DbOf(api: Api, p: PipelineId): DbId
    requires p in api.pipelines && api.pipelines[p].source in api.sources
  {
    api.sources[api.pipelines[p].source]
  }

  /**
    A pipeline deletion that got as far as step `k`: 1 is the API commit, 2 the source
    commit, 3 the slots. Steps 2 and 3 exist only if the source can be reached.
  */
  function Stage(w: World, p: PipelineId, combined: bool, reachable: bool, k: nat): World
    requires p in w.api.pipelines && w.api.pipelines[p].source in w.api.sources && DbOf(w.api, p) in w.dbs
  {
    var d := DbOf(w.api, p);
    var db := w.dbs[d];
    if k == 0 then w
    else
      World(ApiAfter(w.api, p, combined),
            if !reachable || k == 1 then w.dbs
            else if k == 2 then w.dbs[d := db.(state := StateWithout(db.state, {p}))]
            else w.dbs[d := db.(state := StateWithout(db.state, {p}), slots := db.slots - {p})])
  }

  function LastStage(reachable: bool): nat {
    if reachable then 3 else 1
  }

  predicate Known(w: World, p: PipelineId) {
    p in w.api.pipelines && w.api.pipelines[p].source in w.api.sources && DbOf(w.api, p) in w.dbs
  }

  /** Pipeline and replicator vanish together, and the combined route drops exactly an unused destination. */
  ghost predicate ConsistentlyGone(before: Api, after: Api, p: PipelineId, combined: bool)
    requires p in before.pipelines
  {
    var row := before.pipelines[p];
    && (p in after.pipelines <==> row.replicator in after.replicators)
    && (row.destination in after.destinations <==> !combined || InUse(after, row.destination))
    && (forall e :: e in before.destinations && e != row.destination ==> e in after.destinations)
  }

  /** Another pipeline keeps its row, its state and its slots. */
  predicate SameOther(w: World, v: World, q: PipelineId, d: DbId)
    requires d in w.dbs && d in v.dbs
  {
    && (q in v.api.pipelines <==> q in w.api.pipelines)
    && (q in w.api.pipelines ==> v.api.pipelines[q] == w.api.pipelines[q])
    && (q in v.dbs[d].slots <==> q in w.dbs[d].slots)
    && (v.dbs[d].state.Some? <==> w.dbs[d].state.Some?)
    && (w.dbs[d].state.Some? ==> (q in v.dbs[d].state.value <==> q in w.dbs[d].state.value))
  }

  /** While the row is there nothing on the source was touched, and slots go only after both commits. */
  ghost predicate SourceAfterRow(w: World, v: World, p: PipelineId)
    requires v.dbs.Keys == w.dbs.Keys
  {
    && (p in v.api.pipelines ==> v == w)
    && (forall d :: d in w.dbs && p in w.dbs[d].slots && p !in v.dbs[d].slots ==>
          p !in v.api.pipelines && (v.dbs[d].state.Some? ==> p !in v.dbs[d].state.value))
  }

  lemma StageOrder(w: World, p: PipelineId, combined: bool, reachable: bool, k: nat)
    requires Known(w, p)
    ensures SourceAfterRow(w, Stage(w, p, combined, reachable, k), p)
    ensures forall q, d :: q != p && d in w.dbs ==> SameOther(w, Stage(w, p, combined, reachable, k), q, d)
  {
  }

  lemma RowsConsistent(api: Api, p: PipelineId, combined: bool)
    requires Integrity(api) && p in api.pipelines
    ensures Integrity(ApiAfter(api, p, combined)) && ConsistentlyGone(api, ApiAfter(api, p, combined), p, combined)
  {
    var after, row := ApiAfter(api, p, combined), api.pipelines[p];
    assert after.pipelines == api.pipelines - {p};
    assert InUse(after, row.destination) <==> exists q :: q in after.pipelines && after.pipelines[q].destination == row.destination;
  }

  /**
    What every exit of a deletion keeps: the source is touched only once the row is gone,
    slots go last, the rows stay consistent, and other pipelines notice nothing.
  */
  ghost predicate Orderly(w: World, v: World, p: PipelineId, combined: bool) {
    && v.dbs.Keys == w.dbs.Keys
    && SourceAfterRow(w, v, p)
    && (Integrity(w.api) ==> Integrity(v.api) && (p in w.api.pipelines ==> ConsistentlyGone(w.api, v.api, p, combined)))
    && (forall q, d :: q != p && d in w.dbs ==> SameOther(w, v, q, d))
  }

  lemma UntouchedOrderly(w: World, p: PipelineId, combined: bool)
    ensures Orderly(w, w, p, combined)
  {
    if Integrity(w.api) && p in w.api.pipelines { assert InUse(w.api, w.api.pipelines[p].destination); }
  }

  lemma StageOrderly(w: World, p: PipelineId, combined: bool, reachable: bool, k: nat)
    requires Known(w, p)
    ensures Orderly(w, Stage(w, p, combined, reachable, k), p, combined)
  {
    if k == 0 {
      UntouchedOrderly(w, p, combined);
    } else {
      StageOrder(w, p, combined, reachable, k);
      if Integrity(w.api) { RowsConsistent(w.api, p, combined); }
    }
  }

  predicate UsedByOthers(api: Api, p: PipelineId)
    requires p in api.pipelines
  {
    exists q :: q in api.pipelines && q != p && api.pipelines[q].destination == api.pipelines[p].destination
  }

  lemma StillInUse(api: Api, p: PipelineId, rest: Api)
    requires p in api.pipelines && rest.pipelines == api.pipelines - {p}
    ensures InUse(rest, api.pipelines[p].destination) <==> UsedByOthers(api, p)
  {
    if UsedByOthers(api, p) {
      var q :| q in api.pipelines && q != p && api.pipelines[q].destination == api.pipelines[p].destination;
      assert q in rest.pipelines;
    }
  }

  /** The checks before the first commit, and the API transaction they lead to. */
  method PrepareDeletion(api: Api, p: PipelineId, destination: Option<DestinationId>, active: set<ReplicatorId>)
    returns (refusal: Option<Outcome>, apiTxn: Api)
    ensures refusal != Some(Done) && refusal != Some(StepFailed)
    ensures refusal == Some(PipelineNotFound) <==> p !in api.pipelines
    ensures refusal == Some(DestinationMismatch) <==>
      p in api.pipelines && destination.Some? && api.pipelines[p].destination != destination.value
    ensures refusal == Some(ActivePipeline) ==> p in api.pipelines && api.pipelines[p].replicator in active
    ensures refusal == Some(SourceNotFound) || refusal == Some(DestinationNotFound) ==> !Integrity(api)
    ensures refusal.None? <==>
      && p in api.pipelines && (destination.Some? ==> api.pipelines[p].destination == destination.value)
      && api.pipelines[p].replicator !in active && api.pipelines[p].source in api.sources
      && (destination.Some? ==> UsedByOthers(api, p) || destination.value in api.destinations)
    ensures refusal.None? ==> apiTxn == ApiAfter(api, p, destination.Some?)
  {
    apiTxn := api;
    if p !in api.pipelines { return Some(PipelineNotFound), api; }
    var row := api.pipelines[p];
    if destination.Some? && row.destination != destination.value { return Some(DestinationMismatch), api; }
    if row.replicator in active { return Some(ActivePipeline), api; }
    if row.source !in api.sources { return Some(SourceNotFound), api; }
    apiTxn := api.(pipelines := api.pipelines - {p}, replicators := api.replicators - {row.replicator});
    StillInUse(api, p, apiTxn);
    if destination.Some? && !InUse(apiTxn, row.destination) {
      if row.destination !in apiTxn.destinations { return Some(DestinationNotFound), api; }
      apiTxn := apiTxn.(destinations := apiTxn.destinations - {row.destination});
    }
    return None, apiTxn;
  }

  /** Both databases as the service sees them; `steps` more steps will succeed. */
  class Service {
    var api: Api
    var dbs: map<DbId, Db>
    var steps: nat

    ghost function Value(): World
      reads this
    {
      World(api, dbs)
    }

    method Step() returns (ok: bool)
      modifies this`steps
      ensures ok <==> old(steps) > 0
      ensures steps == if ok then old(steps) - 1 else 0
    {
      ok := steps > 0;
      if ok { steps := steps - 1; }
    }

    /** `delete_pipeline`, and with a destination id `delete_destination_and_pipeline`. */
    method DeletePipeline(p: PipelineId, destination: Option<DestinationId>, active: set<ReplicatorId>, reachable: set<DbId>)
      returns (r: Outcome, ghost k: nat)
      requires forall s :: s in api.sources ==> api.sources[s] in dbs
      modifies this
      ensures r == Done || r == StepFailed ==> Known(old(Value()), p) && k <= LastStage(DbOf(old(api), p) in reachable)
      ensures r == Done ==> k == LastStage(DbOf(old(api), p) in reachable)
      ensures r == StepFailed ==> k == old(steps) < LastStage(DbOf(old(api), p) in reachable)
      ensures r == Done ==> old(steps) >= LastStage(DbOf(old(api), p) in reachable)
      ensures r == Done || r == StepFailed <==>
        && p in old(api).pipelines && (destination.Some? ==> old(api).pipelines[p].destination == destination.value)
        && old(api).pipelines[p].replicator !in active && old(api).pipelines[p].source in old(api).sources
        && (destination.Some? ==> UsedByOthers(old(api), p) || destination.value in old(api).destinations)
      ensures r == Done || r == StepFailed ==> Value() == Stage(old(Value()), p, destination.Some?, DbOf(old(api), p) in reachable, k)
      ensures r != Done && r != StepFailed ==> Value() == old(Value())
      ensures r == PipelineNotFound <==> p !in old(api).pipelines
      ensures r == DestinationMismatch <==>
        p in old(api).pipelines && destination.Some? && old(api).pipelines[p].destination != destination.value
      ensures r == ActivePipeline ==> p in old(api).pipelines && old(api).pipelines[p].replicator in active
      ensures r == Done || r == StepFailed ==> old(api).pipelines[p].replicator !in active
      ensures Orderly(old(Value()), Value(), p, destination.Some?)
      ensures r == SourceNotFound ==> !Integrity(old(api))
      ensures r == DestinationNotFound ==> !Integrity(old(api))
    {
      ghost var w := Value();
      var refusal, apiTxn := PrepareDeletion(api, p, destination, active);
      if refusal.Some? {
        UntouchedOrderly(w, p, destination.Some?);
        return refusal.value, 0;
      }
      var d := api.sources[api.pipelines[p].source];
      r, k := Commit(p, apiTxn, d, d in reachable, destination.Some?);
      StageOrderly(w, p, destination.Some?, d in reachable, k);
    }

    /** The API transaction first, then the source transaction, then the slots. */
    method Commit(p: PipelineId, apiTxn: Api, d: DbId, connected: bool, ghost combined: bool) returns (r: Outcome, ghost k: nat)
      requires Known(Value(), p) && d == DbOf(api, p) && apiTxn == ApiAfter(api, p, combined)
      modifies this
      ensures k == (if old(steps) < LastStage(connected) then old(steps) else LastStage(connected))
      ensures r == (if k == LastStage(connected) then Done else StepFailed)
      ensures Value() == Stage(old(Value()), p, combined, connected, k)
    {
      var sourceTxn := dbs[d].(state := StateWithout(dbs[d].state, {p}));
      var ok := Step();
      if !ok { return StepFailed, 0; }
      api := apiTxn;
      if !connected { return Done, 1; }
      ok := Step();
      if !ok { return StepFailed, 1; }
      dbs := dbs[d := sourceTxn];
      ok := Step();
      if !ok { return StepFailed, 2; }
      dbs := dbs[d := dbs[d].(slots := dbs[d].slots - {p})];
      return Done, 3;
    }
  }

  /** An attempt to delete a pipeline: whether the source answered, and the step reached. */
  datatype Attempt = Attempt(combined: bool, reachable: bool, k: nat)

  function Deleted(w: World, p: PipelineId, attempts: seq<Attempt>): (v: World)
    ensures v.dbs.Keys == w.dbs.Keys
    decreases |attempts|
  {
    if attempts == [] then w
    else if Known(w, p) then
      Deleted(Stage(w, p, attempts[0].combined, attempts[0].reachable, attempts[0].k), p, attempts[1..])
    else Deleted(w, p, attempts[1..])
  }

  /** The first attempt that committed to the API database. */
  function Effective(attempts: seq<Attempt>): Option<Attempt> {
    if attempts == [] then None else if attempts[0].k > 0 then Some(attempts[0]) else Effective(attempts[1..])
  }

  lemma {:induction false} GoneStaysPut(w: World, p: PipelineId, attempts: seq<Attempt>)
    requires p !in w.api.pipelines
    ensures Deleted(w, p, attempts) == w
    decreases |attempts|
  {
    if attempts != [] { GoneStaysPut(w, p, attempts[1..]); }
  }

  lemma {:induction false} OnlyOneAttemptCounts(w: World, p: PipelineId, attempts: seq<Attempt>)
    requires Known(w, p)
    ensures var e := Effective(attempts);
            Deleted(w, p, attempts) == if e.Some? then Stage(w, p, e.value.combined, e.value.reachable, e.value.k) else w
    decreases |attempts|
  {
    if attempts != [] {
      var a := attempts[0];
      var v := Stage(w, p, a.combined, a.reachable, a.k);
      if a.k > 0 { GoneStaysPut(v, p, attempts[1..]); } else { OnlyOneAttemptCounts(w, p, attempts[1..]); }
    }
  }

  /**
    However often deletion is attempted, a pipeline's slots are gone in the end exactly if
    the attempt that removed its row also got through to the slots. Otherwise later
    attempts find no pipeline, and its slots stay.
  */
  lemma SlotsGoneIff(w: World, p: PipelineId, attempts: seq<Attempt>)
    requires Known(w, p) && p in w.dbs[DbOf(w.api, p)].slots
    ensures var e := Effective(attempts);
            p !in Deleted(w, p, attempts).dbs[DbOf(w.api, p)].slots <==> e.Some? && e.value.reachable && e.value.k >= 3
  {
    OnlyOneAttemptCounts(w, p, attempts);
  }

  /** The same for its stored state, one step earlier. */
  lemma StateGoneIff(w: World, p: PipelineId, attempts: seq<Attempt>)
    requires Known(w, p) && w.dbs[DbOf(w.api, p)].state.Some? && p in w.dbs[DbOf(w.api, p)].state.value
    ensures var e := Effective(attempts);
      var state := Deleted(w, p, attempts).dbs[DbOf(w.api, p)].state;
      state.Some? && (p !in state.value <==> e.Some? && e.value.reachable && e.value.k >= 2)
  {
    OnlyOneAttemptCounts(w, p, attempts);
  }

  /** So a deletion cut short after the API commit and then repeated leaks: the repetition cannot find the pipeline. */
  lemma RepeatedDeletionLeaks(w: World, p: PipelineId)
    requires Known(w, p) && p in w.dbs[DbOf(w.api, p)].slots
    ensures var v := Deleted(w, p, [Attempt(false, true, 1), Attempt(false, true, 3)]);
            p !in v.api.pipelines && p in v.dbs[DbOf(w.api, p)].slots
  {
  }
}
