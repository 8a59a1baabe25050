/**
  Deleting a tenant (crates/etl-api/src/routes/tenants.rs): every source database is
  cleaned first and the tenant's rows go last, so an interrupted deletion can be repeated.
*/
module TenantDeletion {
  import opened Wrappers
  import opened Deletion

  predicate NoDuplicates(s: seq<PipelineId>) {
    forall i, j :: 0 <= i < j < |s| ==> s[i] != s[j]
  }

  function Ids(s: seq<PipelineId>): set<PipelineId> {
    set p | p in s
  }

  /** Pipelines that belong to the visited sources among those whose database answers. */
  function Handled(api: Api, reachable: set<DbId>, visited: set<SourceId>): set<PipelineId> {
    set p | p in api.pipelines && api.pipelines[p].source in visited && api.pipelines[p].source in api.sources
              && api.sources[api.pipelines[p].source] in reachable
  }

  function HandledAt(api: Api, reachable: set<DbId>, visited: set<SourceId>, d: DbId): set<PipelineId> {
    set p | p in Handled(api, reachable, visited) && api.sources[api.pipelines[p].source] == d
  }

  predicate Touched(api: Api, reachable: set<DbId>, visited: set<SourceId>, d: DbId) {
    exists s :: s in visited && s in api.sources && api.sources[s] == d && d in reachable
  }

  /** Uninstalling drops the ETL schema with all state in it, if the service owns it. */
  function Uninstalled(db: Db): Db {
    if db.owned then db.(state := None) else db
  }

  /** A database once the sources in `visited` are done. */
  function DbAfter(db: Db, api: Api, reachable: set<DbId>, visited: set<SourceId>, d: DbId): Db {
    var gone := HandledAt(api, reachable, visited, d);
    if Touched(api, reachable, visited, d)
    then Without(db, gone)
    else db
  }

  ghost function DbsAfter(w: World, reachable: set<DbId>, visited: set<SourceId>): map<DbId, Db> {
    map d | d in w.dbs :: DbAfter(w.dbs[d], w.api, reachable, visited, d)
  }

  /** What a completed tenant deletion leaves. */
  ghost function Cleaned(w: World, reachable: set<DbId>): World {
    World(NO_ROWS, DbsAfter(w, reachable, w.api.sources.Keys))
  }

  /** Takes the pipelines `gone` out of a database that the service then uninstalls. */
  function Without(db: Db, gone: set<PipelineId>): Db {
    Uninstalled(db.(state := StateWithout(db.state, gone), slots := db.slots - gone))
  }

  lemma WithoutTwice(db: Db, a: set<PipelineId>, b: set<PipelineId>)
    ensures Without(Without(db, a), b) == Without(db, a + b)
  {
    assert db.slots - a - b == db.slots - (a + b);
    if db.state.Some? { assert db.state.value - a - b == db.state.value - (a + b); }
  }

  lemma StateWithoutMore(state: Option<set<PipelineId>>, a: set<PipelineId>, b: set<PipelineId>)
    ensures StateWithout(StateWithout(state, a), b) == StateWithout(state, a + b)
    ensures StateWithout(state, {}) == state
  {
    if state.Some? { assert state.value - a - b == state.value - (a + b) && state.value - {} == state.value; }
  }

  /** Each database lies between untouched and cleaned. */
  predicate PartlyCleaned(before: Db, after: Db, gone: set<PipelineId>, touched: bool) {
    && after.owned == before.owned
    && before.slots - gone <= after.slots <= before.slots
    && (if before.state.Some? && after.state.Some?
        then before.state.value - gone <= after.state.value <= before.state.value
        else after.state.None? && (before.state.None? || (before.owned && touched)))
    && (!touched ==> after == before)
  }

  ghost predicate Partly(w: World, v: World, reachable: set<DbId>) {
    && v.api == w.api && v.dbs.Keys == w.dbs.Keys
    && forall d :: d in w.dbs ==>
         PartlyCleaned(w.dbs[d], v.dbs[d], HandledAt(w.api, reachable, w.api.sources.Keys, d),
                       Touched(w.api, reachable, w.api.sources.Keys, d))
  }

  /** Since `before`, the slots of each of the pipelines were asked to go exactly once, and no others. */
  ghost predicate Asked(before: seq<PipelineId>, after: seq<PipelineId>, pipelines: set<PipelineId>) {
    multiset(after) == multiset(before) + multiset(pipelines)
  }

  /** The pipelines of each source, as they were grouped. */
  ghost predicate Grouped(groups: map<SourceId, seq<PipelineId>>, rows: map<PipelineId, PipelineRow>, done: set<PipelineId>) {
    && (forall s :: s in groups ==> NoDuplicates(groups[s]))
    && (forall s, p :: s in groups ==> (p in groups[s] <==> p in done && p in rows && rows[p].source == s))
    && (forall p :: p in done && p in rows ==> rows[p].source in groups)
  }

  method GroupBySource(rows: map<PipelineId, PipelineRow>) returns (groups: map<SourceId, seq<PipelineId>>)
    ensures Grouped(groups, rows, rows.Keys)
  {
    groups := map[];
    var rest, done := rows.Keys, {};
    while rest != {}
      invariant rest + done == rows.Keys && rest !! done
      invariant Grouped(groups, rows, done)
      decreases rest
    {
      var p :| p in rest;
      var s := rows[p].source;
      var group := if s in groups then groups[s] else [];
      assert p !in group;
      groups := groups[s := group + [p]];
      rest, done := rest - {p}, done + {p};
    }
  }

  /** The source transaction: the state of each pipeline, then the installation. */
  method CleaningTransaction(db: Db, group: seq<PipelineId>) returns (txn: Db)
    ensures txn == Without(db, Ids(group)).(slots := db.slots)
  {
    txn := db;
    var i := 0;
    StateWithoutMore(db.state, {}, {});
    assert Ids(group[..0]) == {};
    while i < |group|
      invariant 0 <= i <= |group|
      invariant txn == db.(state := StateWithout(db.state, Ids(group[..i])))
    {
      StateWithoutMore(db.state, Ids(group[..i]), {group[i]});
      txn := txn.(state := StateWithout(txn.state, {group[i]}));
      assert Ids(group[..i + 1]) == Ids(group[..i]) + {group[i]};
      i := i + 1;
    }
    assert group[..|group|] == group;
    txn := Uninstalled(txn);
  }

  class Teardown {
    var api: Api
    var dbs: map<DbId, Db>
    var cleanups: seq<PipelineId>   // slot deletions asked for
    var steps: nat                  // steps that will still succeed

    ghost function Value(): World
      reads this
    {
      World(api, dbs)
    }

    method Step() returns (ok: bool)
      modifies this`steps
      ensures ok <==> old(steps) > 0
      ensures steps == if ok then old(steps) - 1 else 0
    {
      ok := steps > 0;
      if ok { steps := steps - 1; }
    }

    /** One source: state of its pipelines and the installation in one transaction, then the slots. */
    method CleanSource(d: DbId, group: seq<PipelineId>) returns (ok: bool)
      requires d in dbs
      modifies this`dbs, this`cleanups, this`steps
      ensures dbs.Keys == old(dbs).Keys && forall e :: e in dbs && e != d ==> dbs[e] == old(dbs)[e]
      ensures ok ==> dbs[d] == Without(old(dbs)[d], Ids(group))
      ensures ok ==> cleanups == old(cleanups) + group
      ensures ok <==> old(steps) >= 1 + |group|
      ensures ok ==> steps == old(steps) - 1 - |group|
      ensures PartlyCleaned(old(dbs)[d], dbs[d], Ids(group), true)
    {
      var txn := CleaningTransaction(dbs[d], group);
      ok := Step();
      if !ok { return; }
      dbs := dbs[d := txn];
      var i := 0;
      assert Ids(group[..0]) == {} && txn.slots - {} == txn.slots;
      while i < |group|
        invariant 0 <= i <= |group| && d in dbs
        invariant dbs == old(dbs)[d := txn.(slots := txn.slots - Ids(group[..i]))]
        invariant cleanups == old(cleanups) + group[..i]
        invariant ok && old(steps) >= 1 + i && steps == old(steps) - 1 - i
      {
        cleanups := cleanups + [group[i]];
        ok := Step();
        if !ok { return; }
        assert txn.slots - Ids(group[..i]) - {group[i]} == txn.slots - (Ids(group[..i]) + {group[i]});
        dbs := dbs[d := dbs[d].(slots := dbs[d].slots - {group[i]})];
        assert Ids(group[..i + 1]) == Ids(group[..i]) + {group[i]};
        i := i + 1;
      }
    }

    /** A source whose database does not answer is skipped. */
    method Visit(s: SourceId, groups: map<SourceId, seq<PipelineId>>, reachable: set<DbId>, ghost w: World, ghost visited: set<SourceId>)
      returns (ok: bool)
      requires s in api.sources && Visited(w, reachable, visited, Value(), groups) && s !in visited
      modifies this`dbs, this`cleanups, this`steps
      ensures ok ==> Visited(w, reachable, visited + {s}, Value(), groups - {s})
      ensures ok ==> Asked(old(cleanups), cleanups, HandledBy(api, reachable, s))
      ensures ok <==> old(steps) >= CostOf(api, reachable, s)
      ensures ok ==> steps == old(steps) - CostOf(api, reachable, s)
      ensures !ok ==> Partly(w, Value(), reachable)
    {
      var d := api.sources[s];
      var group := if s in groups then groups[s] else [];
      GroupTaken(groups, api, visited, s, group);
      if d in reachable {
        GroupSize(group);
        assert Ids(group) == HandledBy(api, reachable, s);
        ok := CleanSource(d, group);
        if ok {
          SourceVisited(w, reachable, visited, s, group);
          GroupCounted(api, reachable, s, group);
          assert dbs == old(dbs)[d := Without(old(dbs)[d], Ids(group))];
        } else {
          PartlyFromVisited(w, reachable, visited, s, group, dbs);
        }
      } else {
        SourceSkipped(w, reachable, visited, s);
        assert HandledBy(api, reachable, s) == {};
        ok := true;
      }
    }

    /** The same, with the requests and steps counted from the start of the loop. */
    method VisitNext(s: SourceId, groups: map<SourceId, seq<PipelineId>>, reachable: set<DbId>, ghost w: World,
                     ghost visited: set<SourceId>, ghost start: seq<PipelineId>, ghost had: nat)
      returns (ok: bool)
      requires s in api.sources && Visited(w, reachable, visited, Value(), groups) && s !in visited
      requires Counted(api, reachable, visited, start, cleanups, had, steps)
      modifies this`dbs, this`cleanups, this`steps
      ensures ok ==> Visited(w, reachable, visited + {s}, Value(), groups - {s})
      ensures ok ==> Counted(api, reachable, visited + {s}, start, cleanups, had, steps)
      ensures !ok ==> Partly(w, Value(), reachable) && had < Cost(api, reachable, api.sources.Keys)
    {
      ghost var asked := cleanups;
      CostGrows(api, reachable, visited, s);
      CostBound(api, reachable, visited + {s});
      ok := Visit(s, groups, reachable, w, visited);
      if ok { AskedMore(start, asked, cleanups, api, reachable, visited, s); }
    }

    /** The loop over the stored sources, in no particular order. */
    method CleanSources(grouped: map<SourceId, seq<PipelineId>>, reachable: set<DbId>, ghost w: World) returns (ok: bool)
      requires Value() == w && GroupsLeft(grouped, api, {})
      requires forall s :: s in api.sources ==> api.sources[s] in dbs
      modifies this`dbs, this`cleanups, this`steps
      ensures ok ==> dbs == DbsAfter(w, reachable, api.sources.Keys)
      ensures ok ==> Asked(old(cleanups), cleanups, Handled(api, reachable, api.sources.Keys))
      ensures ok <==> old(steps) >= Cost(api, reachable, api.sources.Keys)
      ensures ok ==> steps == old(steps) - Cost(api, reachable, api.sources.Keys)
      ensures !ok ==> Partly(w, Value(), reachable)
    {
      var groups, rest := grouped, api.sources.Keys;
      NothingVisited(w, reachable);
      assert api.sources.Keys - rest == {} && Answering(api, reachable, {}) == {};
      while rest != {}
        invariant rest <= api.sources.Keys
        invariant Visited(w, reachable, api.sources.Keys - rest, Value(), groups)
        invariant Counted(api, reachable, api.sources.Keys - rest, old(cleanups), cleanups, old(steps), steps)
        decreases rest
      {
        var s :| s in rest;
        ghost var visited := api.sources.Keys - rest;
        ok := VisitNext(s, groups, reachable, w, visited, old(cleanups), old(steps));
        if !ok { return; }
        groups, rest := groups - {s}, rest - {s};
        assert api.sources.Keys - rest == visited + {s};
      }
      assert api.sources.Keys - {} == api.sources.Keys;
      ok := true;
    }

    /** `delete_tenant`. */
    method DeleteTenant(active: set<ReplicatorId>, reachable: set<DbId>) returns (r: Outcome)
      requires forall s :: s in api.sources ==> api.sources[s] in dbs
      modifies this
      ensures r in {Done, ActivePipeline, StepFailed}
      ensures r == ActivePipeline <==> AnyActive(old(api), active)
      ensures r == ActivePipeline ==> Value() == old(Value())
      ensures r == Done ==> Value() == Cleaned(old(Value()), reachable)
      ensures r == StepFailed ==> Partly(old(Value()), Value(), reachable)
      ensures r == Done ==> Asked(old(cleanups), cleanups, Handled(old(api), reachable, old(api).sources.Keys))
      ensures r == Done <==> (!AnyActive(old(api), active) &&
        old(steps) >= 1 + |Handled(old(api), reachable, old(api).sources.Keys)| + |Answering(old(api), reachable, old(api).sources.Keys)|)
    {
      if AnyActive(api, active) { return ActivePipeline; }
      ghost var w := Value();
      var groups := GroupBySource(api.pipelines);
      var ok := CleanSources(groups, reachable, w);
      if !ok { return StepFailed; }
      ok := Step();
      if !ok {
        PartlyFromAll(w, reachable);
        return StepFailed;
      }
      api := NO_ROWS;
      return Done;
    }
  }

  predicate AnyActive(api: Api, active: set<ReplicatorId>) {
    exists p :: p in api.pipelines && api.pipelines[p].replicator in active
  }

  /** The groups of the sources not visited yet. */
  ghost predicate GroupsLeft(groups: map<SourceId, seq<PipelineId>>, api: Api, visited: set<SourceId>) {
    && (forall s :: s in groups ==> NoDuplicates(groups[s]))
    && (forall s, p :: s in groups ==> (p in groups[s] <==> p in api.pipelines && api.pipelines[p].source == s))
    && (forall p :: p in api.pipelines && api.pipelines[p].source !in visited ==> api.pipelines[p].source in groups)
  }

  /** The sources in `visited` are done; the groups of the others are left. */
  ghost predicate Visited(w: World, reachable: set<DbId>, visited: set<SourceId>, v: World, groups: map<SourceId, seq<PipelineId>>) {
    && v.api == w.api && visited <= w.api.sources.Keys
    && (forall s :: s in w.api.sources ==> w.api.sources[s] in w.dbs)
    && v.dbs == DbsAfter(w, reachable, visited)
    && GroupsLeft(groups, w.api, visited)
  }

  ghost predicate IsGroup(api: Api, s: SourceId, group: seq<PipelineId>) {
    NoDuplicates(group) && forall p :: p in group <==> p in api.pipelines && api.pipelines[p].source == s
  }

  lemma GroupTaken(groups: map<SourceId, seq<PipelineId>>, api: Api, visited: set<SourceId>, s: SourceId, group: seq<PipelineId>)
    requires GroupsLeft(groups, api, visited) && s !in visited
    requires group == if s in groups then groups[s] else []
    ensures IsGroup(api, s, group) && GroupsLeft(groups - {s}, api, visited + {s})
  {
  }

  lemma NothingVisited(w: World, reachable: set<DbId>)
    ensures DbsAfter(w, reachable, {}) == w.dbs && Handled(w.api, reachable, {}) == {}
  {
  }

  lemma HandledAtGrows(api: Api, reachable: set<DbId>, visited: set<SourceId>, s: SourceId, group: seq<PipelineId>, d: DbId)
    requires IsGroup(api, s, group) && s in api.sources && s !in visited && api.sources[s] in reachable
    ensures HandledAt(api, reachable, visited + {s}, d) ==
            HandledAt(api, reachable, visited, d) + if d == api.sources[s] then Ids(group) else {}
    ensures Touched(api, reachable, visited + {s}, d) <==> Touched(api, reachable, visited, d) || d == api.sources[s]
  {
  }

  lemma SourceVisited(w: World, reachable: set<DbId>, visited: set<SourceId>, s: SourceId, group: seq<PipelineId>)
    requires IsGroup(w.api, s, group) && s in w.api.sources && s !in visited && w.api.sources[s] in reachable
    requires w.api.sources[s] in w.dbs
    ensures var d := w.api.sources[s];
            var before := DbsAfter(w, reachable, visited);
            DbsAfter(w, reachable, visited + {s}) == before[d := Without(before[d], Ids(group))]
  {
    forall e | e in w.dbs
      ensures DbAfter(w.dbs[e], w.api, reachable, visited + {s}, e) ==
              if e == w.api.sources[s] then Without(DbAfter(w.dbs[e], w.api, reachable, visited, e), Ids(group))
              else DbAfter(w.dbs[e], w.api, reachable, visited, e)
    {
      HandledAtGrows(w.api, reachable, visited, s, group, e);
      var gone := HandledAt(w.api, reachable, visited, e);
      WithoutTwice(w.dbs[e], gone, Ids(group));
      if !Touched(w.api, reachable, visited, e) { assert gone == {} && gone + Ids(group) == Ids(group); }
      assert gone + {} == gone;
    }
  }

  lemma SourceSkipped(w: World, reachable: set<DbId>, visited: set<SourceId>, s: SourceId)
    requires s in w.api.sources && w.api.sources[s] !in reachable
    ensures DbsAfter(w, reachable, visited + {s}) == DbsAfter(w, reachable, visited)
    ensures Handled(w.api, reachable, visited + {s}) == Handled(w.api, reachable, visited)
  {
    assert Handled(w.api, reachable, visited + {s}) == Handled(w.api, reachable, visited);
    forall d | d in w.dbs
      ensures DbAfter(w.dbs[d], w.api, reachable, visited + {s}, d) == DbAfter(w.dbs[d], w.api, reachable, visited, d)
    {
      if Touched(w.api, reachable, visited, d) {
        var t :| t in visited && t in w.api.sources && w.api.sources[t] == d && d in reachable;
        assert t in visited + {s};
      }
    }
  }

  lemma {:induction false} NoDuplicatesCount(s: seq<PipelineId>)
    requires NoDuplicates(s)
    ensures multiset(s) == multiset(Ids(s))
    decreases |s|
  {
    if s != [] {
      var rest := s[..|s| - 1];
      NoDuplicatesCount(rest);
      assert s == rest + [s[|s| - 1]];
      assert Ids(s) == Ids(rest) + {s[|s| - 1]} && s[|s| - 1] !in Ids(rest);
    }
  }

  function HandledBy(api: Api, reachable: set<DbId>, s: SourceId): set<PipelineId> {
    set p | p in api.pipelines && api.pipelines[p].source == s && s in api.sources && api.sources[s] in reachable
  }

  /** The sources among `visited` whose database answers. */
  function Answering(api: Api, reachable: set<DbId>, visited: set<SourceId>): set<SourceId> {
    set s | s in visited && s in api.sources && api.sources[s] in reachable
  }

  /** Steps that cleaning takes: a commit for each source that answers and a slot deletion for each of its pipelines. */
  function Cost(api: Api, reachable: set<DbId>, visited: set<SourceId>): nat {
    |Handled(api, reachable, visited)| + |Answering(api, reachable, visited)|
  }

  function CostOf(api: Api, reachable: set<DbId>, s: SourceId): nat
    requires s in api.sources
  {
    if api.sources[s] in reachable then 1 + |HandledBy(api, reachable, s)| else 0
  }

  ghost predicate Paid(api: Api, reachable: set<DbId>, visited: set<SourceId>, before: nat, after: nat) {
    before == after + Cost(api, reachable, visited)
  }

  ghost predicate Counted(api: Api, reachable: set<DbId>, visited: set<SourceId>,
                          start: seq<PipelineId>, cleanups: seq<PipelineId>, had: nat, left: nat) {
    Asked(start, cleanups, Handled(api, reachable, visited)) && Paid(api, reachable, visited, had, left)
  }

  lemma CostGrows(api: Api, reachable: set<DbId>, visited: set<SourceId>, s: SourceId)
    requires s in api.sources && s !in visited
    ensures Cost(api, reachable, visited + {s}) == Cost(api, reachable, visited) + CostOf(api, reachable, s)
  {
    var x, y := Handled(api, reachable, visited), HandledBy(api, reachable, s);
    assert Handled(api, reachable, visited + {s}) == x + y && x !! y;
    if api.sources[s] in reachable {
      assert Answering(api, reachable, visited + {s}) == Answering(api, reachable, visited) + {s};
    } else {
      assert Answering(api, reachable, visited + {s}) == Answering(api, reachable, visited) && y == {};
    }
  }

  lemma SmallerSet<T>(a: set<T>, b: set<T>)
    requires a <= b
    ensures |a| <= |b|
  {
    assert b == a + (b - a);
  }

  lemma CostBound(api: Api, reachable: set<DbId>, visited: set<SourceId>)
    requires visited <= api.sources.Keys
    ensures Cost(api, reachable, visited) <= Cost(api, reachable, api.sources.Keys)
  {
    SmallerSet(Handled(api, reachable, visited), Handled(api, reachable, api.sources.Keys));
    SmallerSet(Answering(api, reachable, visited), Answering(api, reachable, api.sources.Keys));
  }

  lemma {:induction false} GroupSize(group: seq<PipelineId>)
    requires NoDuplicates(group)
    ensures |Ids(group)| == |group|
    decreases |group|
  {
    if group != [] {
      var rest := group[..|group| - 1];
      GroupSize(rest);
      assert Ids(group) == Ids(rest) + {group[|group| - 1]} && group[|group| - 1] !in Ids(rest);
    }
  }

  lemma GroupCounted(api: Api, reachable: set<DbId>, s: SourceId, group: seq<PipelineId>)
    requires IsGroup(api, s, group) && s in api.sources && api.sources[s] in reachable
    ensures multiset(group) == multiset(HandledBy(api, reachable, s))
  {
    NoDuplicatesCount(group);
    assert Ids(group) == HandledBy(api, reachable, s);
  }

  lemma AskedMore(a: seq<PipelineId>, b: seq<PipelineId>, c: seq<PipelineId>, api: Api, reachable: set<DbId>, visited: set<SourceId>, s: SourceId)
    requires Asked(a, b, Handled(api, reachable, visited)) && Asked(b, c, HandledBy(api, reachable, s)) && s !in visited
    ensures Asked(a, c, Handled(api, reachable, visited + {s}))
  {
  }

  // Interrupted deletions.

  lemma HandledMonotone(api: Api, r1: set<DbId>, r2: set<DbId>, v1: set<SourceId>, v2: set<SourceId>, d: DbId)
    requires v1 <= v2 && forall s :: s in v1 && s in api.sources && api.sources[s] in r1 ==> api.sources[s] in r2
    ensures HandledAt(api, r1, v1, d) <= HandledAt(api, r2, v2, d)
    ensures Touched(api, r1, v1, d) ==> Touched(api, r2, v2, d)
  {
  }

  lemma PartlyFromAll(w: World, reachable: set<DbId>)
    ensures Partly(w, World(w.api, DbsAfter(w, reachable, w.api.sources.Keys)), reachable)
  {
  }

  lemma PartlyFromVisited(w: World, reachable: set<DbId>, visited: set<SourceId>, s: SourceId, group: seq<PipelineId>, dbs: map<DbId, Db>)
    requires visited <= w.api.sources.Keys && s in w.api.sources && s !in visited && IsGroup(w.api, s, group)
    requires w.api.sources[s] in reachable && w.api.sources[s] in w.dbs && dbs.Keys == w.dbs.Keys
    requires var before := DbsAfter(w, reachable, visited);
      && (forall e :: e in dbs && e != w.api.sources[s] ==> dbs[e] == before[e])
      && PartlyCleaned(before[w.api.sources[s]], dbs[w.api.sources[s]], Ids(group), true)
    ensures Partly(w, World(w.api, dbs), reachable)
  {
  }

  /** Every source's database answers. */
  ghost predicate AllReachable(api: Api, reachable: set<DbId>) {
    forall s :: s in api.sources ==> api.sources[s] in reachable
  }

  lemma CleanedAfterPart(before: Db, after: Db, gone: set<PipelineId>, touched: bool)
    requires PartlyCleaned(before, after, gone, touched)
    ensures touched ==> Without(after, gone) == Without(before, gone)
  {
    assert before.slots - gone == after.slots - gone;
    if before.state.Some? && after.state.Some? { assert before.state.value - gone == after.state.value - gone; }
  }

  /** A completed deletion does not notice an interrupted one before it. */
  lemma PartForgotten(w: World, v: World, some: set<DbId>, reachable: set<DbId>)
    requires Partly(w, v, some) && AllReachable(w.api, reachable)
    ensures Cleaned(v, reachable) == Cleaned(w, reachable)
  {
    var all := w.api.sources.Keys;
    forall d | d in w.dbs ensures DbAfter(v.dbs[d], w.api, reachable, all, d) == DbAfter(w.dbs[d], w.api, reachable, all, d) {
      HandledMonotone(w.api, some, reachable, all, all, d);
      var gone := HandledAt(w.api, reachable, all, d);
      if Touched(w.api, reachable, all, d) {
        assert PartlyCleaned(w.dbs[d], v.dbs[d], gone, true);
        CleanedAfterPart(w.dbs[d], v.dbs[d], gone, true);
      }
    }
  }

  /** Interrupted attempts, one after the other, each reaching the databases it could. */
  ghost predicate Interrupted(worlds: seq<World>, reachable: seq<set<DbId>>) {
    |worlds| == |reachable| + 1 && forall i :: 0 <= i < |reachable| ==> Partly(worlds[i], worlds[i + 1], reachable[i])
  }

  /**
    However often a tenant deletion is interrupted, and wherever, one that completes with
    every source answering leaves exactly what a single uninterrupted one would have left.
  */
  lemma {:induction false} TenantDeletionConverges(worlds: seq<World>, some: seq<set<DbId>>, reachable: set<DbId>)
    requires Interrupted(worlds, some) && AllReachable(worlds[0].api, reachable)
    ensures Cleaned(worlds[|worlds| - 1], reachable) == Cleaned(worlds[0], reachable)
    decreases |worlds|
  {
    if |worlds| > 1 {
      assert Partly(worlds[0], worlds[0 + 1], some[0]);
      PartForgotten(worlds[0], worlds[1], some[0], reachable);
      forall i | 0 <= i < |some[1..]| ensures Partly(worlds[1..][i], worlds[1..][i + 1], some[1..][i]) {
        assert Partly(worlds[i + 1], worlds[i + 1 + 1], some[i + 1]);
      }
      TenantDeletionConverges(worlds[1..], some[1..], reachable);
    }
  }

  /**
    A completed deletion removes a pipeline's slots exactly from the database of its own
    source, if that source is listed and its database answers.
  */
  lemma SlotsRemovedIff(w: World, reachable: set<DbId>, p: PipelineId, d: DbId)
    requires d in w.dbs && p in w.dbs[d].slots
    ensures p !in Cleaned(w, reachable).dbs[d].slots <==>
      p in w.api.pipelines && w.api.pipelines[p].source in w.api.sources && DbOf(w.api, p) == d && d in reachable
  {
  }

  /** With every source answering, nothing of the tenant remains: no row, no state, no slot. */
  lemma NothingRemains(w: World, reachable: set<DbId>, p: PipelineId)
    requires AllReachable(w.api, reachable) && Known(w, p)
    ensures var v := Cleaned(w, reachable);
      && v.api == NO_ROWS
      && p !in v.dbs[DbOf(w.api, p)].slots
      && (v.dbs[DbOf(w.api, p)].state.Some? ==> p !in v.dbs[DbOf(w.api, p)].state.value)
  {
  }

  /**
    A pipeline without a row in this tenant keeps its slots everywhere, but loses its state
    in a database exactly if a reachable source of the tenant points there and the service
    owns the ETL schema.
  */
  lemma ForeignPipelines(w: World, reachable: set<DbId>, q: PipelineId, d: DbId)
    requires d in w.dbs && q !in w.api.pipelines
    ensures q in Cleaned(w, reachable).dbs[d].slots <==> q in w.dbs[d].slots
    ensures w.dbs[d].state.Some? && q in w.dbs[d].state.value ==>
      (Cleaned(w, reachable).dbs[d].state.Some? && q in Cleaned(w, reachable).dbs[d].state.value <==>
         !(w.dbs[d].owned && Touched(w.api, reachable, w.api.sources.Keys, d)))
  {
  }

  /** So slots that an interrupted pipeline deletion left behind survive the tenant's deletion too. */
  lemma LeakedSlotsSurvive(w: World, reachable: set<DbId>, p: PipelineId)
    requires Known(w, p) && p in w.dbs[DbOf(w.api, p)].slots
    ensures p in Cleaned(Stage(w, p, false, true, 1), reachable).dbs[DbOf(w.api, p)].slots
  {
  }
}
