/**
  Requests for external maintenance (crates/etl-maintenance/src/coordination.rs and its
  PostgreSQL store crates/etl-maintenance/src/coordination/postgres.rs): a pending request
  collects operations until a run takes it.
*/
module Maintenance {
  import opened Wrappers

  datatype Operations = Operations(inlineFlush: bool, mergeFiles: bool, rewriteFiles: bool, expireSnapshots: bool, cleanupFiles: bool)

  const NO_OPERATIONS := Operations(false, false, false, false, false)

  datatype Request = Request(operations: Operations, minInlinedBytes: Option<nat>, minActiveFiles: Option<int>, requestedAt: int)

  datatype Outcome = Created | AlreadyCovered | RejectedActiveRun | MissingState

  datatype State = State(present: bool, activeRun: bool, pending: Option<Request>)

  predicate Covers(a: Operations, b: Operations) {
    && (b.inlineFlush ==> a.inlineFlush) && (b.mergeFiles ==> a.mergeFiles) && (b.rewriteFiles ==> a.rewriteFiles)
    && (b.expireSnapshots ==> a.expireSnapshots) && (b.cleanupFiles ==> a.cleanupFiles)
  }

  function Merge(a: Operations, b: Operations): Operations {
    Operations(a.inlineFlush || b.inlineFlush, a.mergeFiles || b.mergeFiles, a.rewriteFiles || b.rewriteFiles,
               a.expireSnapshots || b.expireSnapshots, a.cleanupFiles || b.cleanupFiles)
  }

  /** `o` covers both operands, and everything that covers both covers `o`. */
  ghost predicate IsJoin(a: Operations, b: Operations, o: Operations) {
    Covers(o, a) && Covers(o, b) && forall c :: Covers(c, a) && Covers(c, b) ==> Covers(c, o)
  }

  lemma MergeIsJoin(a: Operations, b: Operations)
    ensures IsJoin(a, b, Merge(a, b)) && IsJoin(NO_OPERATIONS, b, b)
  {
  }

  function OperationsOf(pending: Option<Request>): Operations {
    if pending.Some? then pending.value.operations else NO_OPERATIONS
  }

  function Or<T>(a: Option<T>, b: Option<T>): Option<T> {
    if a.Some? then a else b
  }

  function Combined(first: Request, later: Request): Request {
    Request(Merge(first.operations, later.operations), Or(later.minInlinedBytes, first.minInlinedBytes),
            Or(later.minActiveFiles, first.minActiveFiles), later.requestedAt)
  }

  function OutcomeOf(st: State, r: Request): Outcome {
    if !st.present then MissingState
    else if st.activeRun then RejectedActiveRun
    else if st.pending.Some? && Covers(st.pending.value.operations, r.operations) then AlreadyCovered
    else Created
  }

  function After(st: State, r: Request): State {
    if OutcomeOf(st, r) != Created then st
    else st.(pending := Some(if st.pending.Some? then Combined(st.pending.value, r) else r))
  }

  class Store {
    var present: bool
    var activeRun: bool
    var pending: Option<Request>

    ghost function Value(): State
      reads this
    {
      State(present, activeRun, pending)
    }

    /** `request_operations`. */
    method RequestOperations(r: Request) returns (outcome: Outcome)
      modifies this`pending
      ensures Value() == After(old(Value()), r) && outcome == OutcomeOf(old(Value()), r)
      ensures outcome != Created ==> Value() == old(Value())
      ensures outcome == AlreadyCovered ==> pending.Some? && Covers(pending.value.operations, r.operations)
      ensures outcome == Created ==> pending.Some? && IsJoin(OperationsOf(old(pending)), r.operations, pending.value.operations)
      ensures outcome == Created && old(pending).Some? ==> !Covers(old(pending).value.operations, pending.value.operations)
      ensures outcome == Created ==> pending.value.requestedAt == r.requestedAt
      ensures outcome == Created && old(pending).None? ==> pending == Some(r)
      ensures outcome == Created && r.minInlinedBytes.Some? ==> pending.value.minInlinedBytes == r.minInlinedBytes
      ensures outcome == Created && r.minActiveFiles.Some? ==> pending.value.minActiveFiles == r.minActiveFiles
      ensures outcome == Created && r.minInlinedBytes.None? && old(pending).Some? ==>
        pending.value.minInlinedBytes == old(pending).value.minInlinedBytes
      ensures outcome == Created && r.minActiveFiles.None? && old(pending).Some? ==>
        pending.value.minActiveFiles == old(pending).value.minActiveFiles
      ensures outcome == MissingState <==> !present
      ensures outcome == RejectedActiveRun <==> present && activeRun
      ensures outcome == Created <==>
        present && !activeRun && (old(pending).Some? ==> !Covers(old(pending).value.operations, r.operations))
    {
      if !present { return MissingState; }
      if activeRun { return RejectedActiveRun; }
      if pending.Some? && Covers(pending.value.operations, r.operations) { return AlreadyCovered; }
      MergeIsJoin(OperationsOf(pending), r.operations);
      if pending.Some? {
        var existing := pending.value;
        existing := existing.(operations := Merge(existing.operations, r.operations));
        existing := existing.(minInlinedBytes := if r.minInlinedBytes.Some? then r.minInlinedBytes else existing.minInlinedBytes);
        existing := existing.(minActiveFiles := if r.minActiveFiles.Some? then r.minActiveFiles else existing.minActiveFiles);
        pending := Some(existing.(requestedAt := r.requestedAt));
      } else {
        pending := Some(r);
      }
      return Created;
    }
  }

  function Run(st: State, requests: seq<Request>): State
    decreases |requests|
  {
    if requests == [] then st else Run(After(st, requests[0]), requests[1..])
  }

  function CreatedCount(st: State, requests: seq<Request>): nat
    decreases |requests|
  {
    if requests == [] then 0
    else (if OutcomeOf(st, requests[0]) == Created then 1 else 0) + CreatedCount(After(st, requests[0]), requests[1..])
  }

  function Size(o: Operations): nat {
    (if o.inlineFlush then 1 else 0) + (if o.mergeFiles then 1 else 0) + (if o.rewriteFiles then 1 else 0)
    + (if o.expireSnapshots then 1 else 0) + (if o.cleanupFiles then 1 else 0)
  }

  function Union(requests: seq<Request>): Operations {
    if requests == [] then NO_OPERATIONS else Merge(Union(requests[..|requests| - 1]), requests[|requests| - 1].operations)
  }

  predicate Open(st: State) {
    st.present && !st.activeRun
  }

  lemma {:induction false} RunConcat(st: State, requests: seq<Request>, r: Request)
    ensures Run(st, requests + [r]) == After(Run(st, requests), r)
    decreases |requests|
  {
    if requests == [] {
      assert [r][1..] == [] && requests + [r] == [r];
      assert Run(st, [r]) == Run(After(st, r), []);
    } else {
      assert (requests + [r])[1..] == requests[1..] + [r];
      RunConcat(After(st, requests[0]), requests[1..], r);
    }
  }

  /** A covered request is one that merging would not change. */
  lemma CoversIsMerge(a: Operations, b: Operations)
    ensures Covers(a, b) <==> Merge(a, b) == a
    ensures !Covers(a, b) ==> Size(Merge(a, b)) > Size(a)
  {
  }

  /** With nothing pending at first, what is pending after any requests is the union of all of them. */
  lemma {:induction false} PendingIsUnion(st: State, requests: seq<Request>)
    requires Open(st) && st.pending.None?
    ensures var end := Run(st, requests);
      && Open(end) && (end.pending.None? <==> requests == [])
      && (requests != [] ==> end.pending.value.operations == Union(requests))
    decreases |requests|
  {
    if requests != [] {
      var shorter, r := requests[..|requests| - 1], requests[|requests| - 1];
      assert requests == shorter + [r];
      PendingIsUnion(st, shorter);
      RunConcat(st, shorter, r);
      if shorter != [] { CoversIsMerge(Union(shorter), r.operations); }
    }
  }

  lemma {:induction false} EachCreatedGrows(st: State, requests: seq<Request>)
    requires Open(st) && st.pending.Some?
    ensures Size(st.pending.value.operations) + CreatedCount(st, requests) <= 5
    decreases |requests|
  {
    if requests != [] {
      CoversIsMerge(st.pending.value.operations, requests[0].operations);
      EachCreatedGrows(After(st, requests[0]), requests[1..]);
    }
  }

  /** Over any number of requests at most six are created, and on missing or running state none is and nothing changes. */
  lemma {:induction false} AtMostSixCreated(st: State, requests: seq<Request>)
    ensures CreatedCount(st, requests) <= 6
    ensures !Open(st) ==> CreatedCount(st, requests) == 0 && Run(st, requests) == st
    decreases |requests|
  {
    if requests != [] {
      if Open(st) && st.pending.Some? {
        EachCreatedGrows(st, requests);
      } else if Open(st) {
        EachCreatedGrows(After(st, requests[0]), requests[1..]);
      } else {
        AtMostSixCreated(After(st, requests[0]), requests[1..]);
      }
    }
  }
}
