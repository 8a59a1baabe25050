/**
  Bringing the stored table states in line with the publication when a pipeline starts
  (crates/etl/src/pipeline.rs). Every call to the source database or the state store may
  be the one that fails; the start-up is then simply attempted again.
*/
module Startup {
  import opened Wrappers
  import opened Handoff

  type TableId = nat

  /** Stored phases, and the tables that have a table-sync replication slot. */
  datatype Db = Db(states: map<TableId, Phase>, slots: set<TableId>)

  datatype Publication = Publication(tables: seq<TableId>, viaPartitionRoot: bool, partitioned: set<TableId>)

  datatype StartError = MissingPublication | PartitionedTables | CallFailed

  predicate HasPartitioned(p: Publication) {
    exists t :: t in p.tables && t in p.partitioned
  }

  /** Row changes of every published table arrive under the table's own id. */
  predicate Usable(publication: Option<Publication>) {
    publication.Some? && (publication.value.viaPartitionRoot || !HasPartitioned(publication.value))
  }

  function TableSet(tables: seq<TableId>): set<TableId> {
    set t | t in tables
  }

  /** The requests that checking the publication takes. */
  function CheckCost(publication: Option<Publication>): nat {
    if publication.None? then 1 else if publication.value.viaPartitionRoot then 3 else 4
  }

  /** Entries of the publication without a stored state. */
  function NewEntries(tables: seq<TableId>, known: map<TableId, Phase>): nat {
    if tables == [] then 0
    else NewEntries(tables[..|tables| - 1], known) + if tables[|tables| - 1] in known then 0 else 1
  }

  lemma {:induction false} NewEntriesPrefix(tables: seq<TableId>, known: map<TableId, Phase>, i: nat)
    requires i <= |tables|
    ensures NewEntries(tables[..i], known) <= NewEntries(tables, known)
    ensures i < |tables| && tables[i] !in known ==> NewEntries(tables[..i], known) < NewEntries(tables, known)
    decreases |tables|
  {
    if i == |tables| {
      assert tables[..i] == tables;
    } else {
      var shorter := tables[..|tables| - 1];
      NewEntriesPrefix(shorter, known, i);
      assert tables[..i] == shorter[..i];
    }
  }

  /** The requests of a start that completes: two for every table it purges. */
  function StartCost(publication: Option<Publication>, known: map<TableId, Phase>): nat
    requires publication.Some?
  {
    var tables := publication.value.tables;
    CheckCost(publication) + 1 + NewEntries(tables, known) + 2 * |known.Keys - TableSet(tables)|
  }

  /** What an attempt got done: tables added, tables removed, and a removed table whose slot it did not reach. */
  datatype Cut = Cut(added: set<TableId>, removed: set<TableId>, undropped: Option<TableId>)

  function DroppedSlots(c: Cut): set<TableId> {
    if c.undropped.Some? then c.removed - {c.undropped.value} else c.removed
  }

  ghost predicate Reaches(before: Db, after: Db, ids: set<TableId>, c: Cut) {
    && c.added <= ids - before.states.Keys
    && c.removed <= before.states.Keys - ids
    && (c.undropped.Some? ==> c.undropped.value in c.removed)
    && (c.removed != {} ==> c.added == ids - before.states.Keys)
    && after.states.Keys == before.states.Keys + c.added - c.removed
    && (forall t :: t in after.states ==> after.states[t] == if t in before.states then before.states[t] else Init)
    && after.slots == before.slots - DroppedSlots(c)
  }

  /** One more entry of the publication in the first loop. */
  lemma AddedNext(before: Db, now: Db, tables: seq<TableId>, i: nat)
    requires i < |tables| && Reaches(before, now, TableSet(tables), Cut(TableSet(tables[..i]) - before.states.Keys, {}, None))
    ensures var next := if tables[i] in before.states then now else now.(states := now.states[tables[i] := Init]);
      Reaches(before, next, TableSet(tables), Cut(TableSet(tables[..i + 1]) - before.states.Keys, {}, None))
    ensures NewEntries(tables[..i + 1], before.states) ==
            NewEntries(tables[..i], before.states) + if tables[i] in before.states then 0 else 1
  {
    assert tables[..i + 1][..i] == tables[..i];
    assert TableSet(tables[..i + 1]) == TableSet(tables[..i]) + {tables[i]};
  }

  predicate Complete(before: Db, ids: set<TableId>, c: Cut) {
    c.added == ids - before.states.Keys && c.removed == before.states.Keys - ids && c.undropped.None?
  }

  /** One attempt to start with the tables `ids` in the publication; completed when `ok`. */
  ghost predicate Attempt(before: Db, after: Db, ids: set<TableId>, ok: bool) {
    exists c :: Reaches(before, after, ids, c) && (ok ==> Complete(before, ids, c))
  }

  lemma SubsetSize(a: set<TableId>, b: set<TableId>)
    requires a <= b
    ensures |a| <= |b|
  {
    assert b == a + (b - a) && a !! (b - a);
  }

  /** In the second loop: of the stored tables all but `rest` are done, and `n` of them were purged. */
  ghost predicate Purged(known: set<TableId>, ids: set<TableId>, rest: set<TableId>, removed: set<TableId>, n: nat) {
    rest <= known && removed == known - rest - ids && n == |removed| && n <= |known - ids|
  }

  lemma PurgedNext(known: set<TableId>, ids: set<TableId>, rest: set<TableId>, removed: set<TableId>, n: nat, t: TableId)
    requires Purged(known, ids, rest, removed, n) && t in rest
    ensures if t in ids then Purged(known, ids, rest - {t}, removed, n) else Purged(known, ids, rest - {t}, removed + {t}, n + 1)
    ensures t !in removed
  {
    if t in ids {
      assert removed == known - (rest - {t}) - ids;
    } else {
      assert removed + {t} == known - (rest - {t}) - ids;
      SubsetSize(removed + {t}, known - ids);
    }
  }

  lemma PurgedAll(known: set<TableId>, ids: set<TableId>, removed: set<TableId>, n: nat)
    requires Purged(known, ids, {}, removed, n)
    ensures removed == known - ids && n == |known - ids|
  {
    assert known - {} - ids == known - ids;
  }

  /** The source database and the state store; `calls` more requests will succeed. */
  class Database {
    var states: map<TableId, Phase>
    var slots: set<TableId>
    var calls: nat

    ghost function Value(): Db
      reads this
    {
      Db(states, slots)
    }

    /** A read, or the first half of a write: fails once the budget is used up. */
    method Call() returns (ok: bool)
      modifies this`calls
      ensures ok <==> old(calls) > 0
      ensures calls == if ok then old(calls) - 1 else old(calls)
    {
      ok := calls > 0;
      if ok { calls := calls - 1; }
    }

    method CheckPublication(publication: Option<Publication>) returns (error: Option<StartError>)
      modifies this`calls
      ensures error == Some(CallFailed) || calls == old(calls) - CheckCost(publication)
      ensures error.None? <==> Usable(publication) && old(calls) >= CheckCost(publication)
      ensures error == Some(MissingPublication) <==> publication.None? && old(calls) >= CheckCost(publication)
      ensures error == Some(PartitionedTables) <==> publication.Some? && !Usable(publication) && old(calls) >= CheckCost(publication)
    {
      var ok := Call();
      if !ok { return Some(CallFailed); }
      if publication.None? { return Some(MissingPublication); }
      ok := Call();
      if !ok { return Some(CallFailed); }
      ok := Call();
      if !ok { return Some(CallFailed); }
      if !publication.value.viaPartitionRoot {
        ok := Call();
        if !ok { return Some(CallFailed); }
        if HasPartitioned(publication.value) {
          return Some(PartitionedTables);
        }
      }
      return None;
    }

    /** `initialize_table_states`. */
    method InitializeTableStates(publication: Option<Publication>) returns (error: Option<StartError>)
      modifies this
      ensures publication.Some? ==> Attempt(old(Value()), Value(), TableSet(publication.value.tables), error.None?)
      ensures error.None? <==> Usable(publication) && old(calls) >= StartCost(publication, old(states))
      ensures error == Some(MissingPublication) <==> publication.None? && old(calls) >= CheckCost(publication)
      ensures error == Some(PartitionedTables) <==> publication.Some? && !Usable(publication) && old(calls) >= CheckCost(publication)
      ensures publication.None? || error == Some(PartitionedTables) || error == Some(MissingPublication) ==> Value() == old(Value())
    {
      ghost var before := Value();
      error := CheckPublication(publication);
      if error.Some? {
        assert publication.Some? ==> Reaches(before, Value(), TableSet(publication.value.tables), Cut({}, {}, None));
        return;
      }
      var loaded := Call();
      if !loaded {
        assert Reaches(before, Value(), TableSet(publication.value.tables), Cut({}, {}, None));
        return Some(CallFailed);
      }
      var known := states;
      error := AddNewTables(publication.value.tables, known, before);
      if error.Some? { return; }
      error := PurgeRemovedTables(TableSet(publication.value.tables), known, before);
    }

    /** The first loop: tables without a stored state start in `Init`. */
    method AddNewTables(tables: seq<TableId>, known: map<TableId, Phase>, ghost before: Db) returns (error: Option<StartError>)
      requires Value() == before && known == before.states
      modifies this
      ensures error.Some? ==> error == Some(CallFailed) && Attempt(before, Value(), TableSet(tables), false)
      ensures error.None? ==> Reaches(before, Value(), TableSet(tables), Cut(TableSet(tables) - known.Keys, {}, None))
      ensures error.None? <==> old(calls) >= NewEntries(tables, known)
      ensures error.None? ==> calls == old(calls) - NewEntries(tables, known)
    {
      var i := 0;
      while i < |tables|
        invariant i <= |tables| && calls == old(calls) - NewEntries(tables[..i], known)
        invariant Reaches(before, Value(), TableSet(tables), Cut(TableSet(tables[..i]) - known.Keys, {}, None))
      {
        NewEntriesPrefix(tables, known, i);
        var ok := AddEntry(tables, i, known, before);
        if !ok { return Some(CallFailed); }
        i := i + 1;
      }
      assert tables[..|tables|] == tables;
      return None;
    }

    method AddEntry(tables: seq<TableId>, i: nat, known: map<TableId, Phase>, ghost before: Db) returns (ok: bool)
      requires i < |tables| && known == before.states
      requires Reaches(before, Value(), TableSet(tables), Cut(TableSet(tables[..i]) - known.Keys, {}, None))
      modifies this
      ensures ok <==> tables[i] in known || old(calls) > 0
      ensures if ok then Reaches(before, Value(), TableSet(tables), Cut(TableSet(tables[..i + 1]) - known.Keys, {}, None))
              else Attempt(before, Value(), TableSet(tables), false)
      ensures ok ==> old(calls) - calls == NewEntries(tables[..i + 1], known) - NewEntries(tables[..i], known)
    {
      AddedNext(before, Value(), tables, i);
      ok := true;
      if tables[i] !in known {
        ok := Call();
        if ok { states := states[tables[i] := Init]; }
      }
    }

    /** The second loop, over the loaded states in no particular order. */
    method PurgeRemovedTables(ids: set<TableId>, known: map<TableId, Phase>, ghost before: Db) returns (error: Option<StartError>)
      requires known == before.states && Reaches(before, Value(), ids, Cut(ids - known.Keys, {}, None))
      modifies this
      ensures error.Some? ==> error == Some(CallFailed)
      ensures Attempt(before, Value(), ids, error.None?)
      ensures error.None? <==> old(calls) >= 2 * |known.Keys - ids|
    {
      var rest := known.Keys;
      ghost var removed: set<TableId>, n: nat := {}, 0;
      while rest != {}
        invariant Purged(known.Keys, ids, rest, removed, n)
        invariant Reaches(before, Value(), ids, Cut(ids - known.Keys, removed, None))
        invariant calls == old(calls) - 2 * n
        decreases rest
      {
        var t :| t in rest;
        PurgedNext(known.Keys, ids, rest, removed, n, t);
        rest := rest - {t};
        if t !in ids {
          var ok := Purge(t, ids, before, removed);
          if !ok { return Some(CallFailed); }
          removed, n := removed + {t}, n + 1;
        }
      }
      PurgedAll(known.Keys, ids, removed, n);
      assert Complete(before, ids, Cut(ids - known.Keys, removed, None));
      return None;
    }

    /** One removed table: its state first, then its slot. */
    method Purge(t: TableId, ids: set<TableId>, ghost before: Db, ghost removed: set<TableId>) returns (ok: bool)
      requires Reaches(before, Value(), ids, Cut(ids - before.states.Keys, removed, None))
      requires t in before.states.Keys - ids - removed
      modifies this
      ensures if ok then Reaches(before, Value(), ids, Cut(ids - before.states.Keys, removed + {t}, None))
              else Attempt(before, Value(), ids, false)
      ensures ok <==> old(calls) >= 2
      ensures ok ==> calls == old(calls) - 2
    {
      ok := Call();
      if !ok { return; }
      states := states - {t};
      ok := Call();
      if !ok {
        assert Reaches(before, Value(), ids, Cut(ids - before.states.Keys, removed + {t}, Some(t)));
        return;
      }
      slots := slots - {t};
    }
  }

  /** A completed attempt keeps a slot exactly if its table is published or had no stored state. */
  lemma SlotKeptIff(before: Db, after: Db, ids: set<TableId>, t: TableId)
    requires Attempt(before, after, ids, true) && t in before.slots
    ensures t in after.slots <==> t in ids || t !in before.states
  {
  }

  /** Consecutive attempts with the same publication. */
  ghost predicate Attempts(dbs: seq<Db>, ids: set<TableId>) {
    dbs != [] && forall i :: 0 <= i < |dbs| - 1 ==> Attempt(dbs[i], dbs[i + 1], ids, false)
  }

  /** What any number of attempts with one publication keep. */
  ghost predicate Between(first: Db, db: Db, ids: set<TableId>) {
    && db.states.Keys <= first.states.Keys + ids
    && first.states.Keys * ids <= db.states.Keys
    && (forall t :: t in db.states ==> db.states[t] == if t in first.states then first.states[t] else Init)
    && db.slots <= first.slots
    && (forall t :: t in first.slots - db.slots ==> t in first.states.Keys - ids && t !in db.states)
  }

  lemma BetweenStep(first: Db, before: Db, after: Db, ids: set<TableId>)
    requires Between(first, before, ids) && Attempt(before, after, ids, false)
    ensures Between(first, after, ids)
  {
  }

  lemma {:induction false} AttemptsBetween(dbs: seq<Db>, ids: set<TableId>)
    requires Attempts(dbs, ids)
    ensures Between(dbs[0], dbs[|dbs| - 1], ids)
    decreases |dbs|
  {
    if |dbs| > 1 {
      var shorter := dbs[..|dbs| - 1];
      AttemptsBetween(shorter, ids);
      assert dbs[|dbs| - 2] == shorter[|shorter| - 1];
      assert Attempt(dbs[|dbs| - 2], dbs[|dbs| - 2 + 1], ids, false);
      BetweenStep(dbs[0], dbs[|dbs| - 2], dbs[|dbs| - 1], ids);
    }
  }

  /**
    However many attempts fail, the first completed one leaves exactly the published tables
    stored, each with the phase it had at first or else in `Init`, and has dropped no slot
    of a published table or of a table it did not purge.
  */
  lemma StartupConverges(dbs: seq<Db>, final: Db, ids: set<TableId>)
    requires Attempts(dbs, ids) && Attempt(dbs[|dbs| - 1], final, ids, true)
    ensures final.states.Keys == ids
    ensures forall t :: t in ids ==> final.states[t] == if t in dbs[0].states then dbs[0].states[t] else Init
    ensures final.slots <= dbs[0].slots
    ensures forall t :: t in dbs[0].slots - final.slots ==> t in dbs[0].states.Keys - ids
  {
    AttemptsBetween(dbs, ids);
    BetweenStep(dbs[0], dbs[|dbs| - 1], final, ids);
    var c :| Reaches(dbs[|dbs| - 1], final, ids, c) && Complete(dbs[|dbs| - 1], ids, c);
  }

  /** Slots left behind: the table was stored at first, its state is gone, its slot is not. */
  ghost function Leaked(first: Db, db: Db): set<TableId> {
    set t | t in db.slots && t in first.states && t !in db.states
  }

  lemma LeakStep(first: Db, before: Db, after: Db, ids: set<TableId>)
    requires Between(first, before, ids) && Attempt(before, after, ids, false)
    ensures exists t :: Leaked(first, after) <= Leaked(first, before) + {t}
  {
    var c :| Reaches(before, after, ids, c);
    var t := c.undropped.GetOr(0);
    assert Leaked(first, after) <= Leaked(first, before) + {t};
  }

  /** Each interrupted attempt leaves at most one slot behind. */
  lemma {:induction false} LeakBound(dbs: seq<Db>, ids: set<TableId>)
    requires Attempts(dbs, ids)
    ensures |Leaked(dbs[0], dbs[|dbs| - 1])| <= |dbs| - 1
    decreases |dbs|
  {
    if |dbs| > 1 {
      var shorter := dbs[..|dbs| - 1];
      AttemptsBetween(shorter, ids);
      LeakBound(shorter, ids);
      var before := dbs[|dbs| - 2];
      assert before == shorter[|shorter| - 1];
      assert Attempt(before, dbs[|dbs| - 2 + 1], ids, false);
      LeakStep(dbs[0], before, dbs[|dbs| - 1], ids);
      var t :| Leaked(dbs[0], dbs[|dbs| - 1]) <= Leaked(dbs[0], before) + {t};
      SubsetSize(Leaked(dbs[0], dbs[|dbs| - 1]), Leaked(dbs[0], before) + {t});
    } else {
      assert Leaked(dbs[0], dbs[0]) == {};
    }
  }

  /** Attempts whose publications may differ from one to the next. */
  ghost predicate Restarts(dbs: seq<Db>, publications: seq<set<TableId>>) {
    |dbs| == |publications| + 1 && forall i :: 0 <= i < |publications| ==> Attempt(dbs[i], dbs[i + 1], publications[i], false)
  }

  /** A slot left behind is never removed by a later start, completed or not, until its table is published again. */
  lemma {:induction false} LeakIsPermanent(dbs: seq<Db>, publications: seq<set<TableId>>, t: TableId)
    requires Restarts(dbs, publications)
    requires t in dbs[0].slots && t !in dbs[0].states
    requires forall i :: 0 <= i < |publications| ==> t !in publications[i]
    ensures t in dbs[|dbs| - 1].slots && t !in dbs[|dbs| - 1].states
    decreases |dbs|
  {
    if |dbs| > 1 {
      assert Attempt(dbs[0], dbs[0 + 1], publications[0], false);
      var c :| Reaches(dbs[0], dbs[1], publications[0], c);
      forall i | 0 <= i < |publications[1..]| ensures Attempt(dbs[1..][i], dbs[1..][i + 1], publications[1..][i], false) {
        assert Attempt(dbs[i + 1], dbs[i + 1 + 1], publications[i + 1], false);
      }
      LeakIsPermanent(dbs[1..], publications[1..], t);
    }
  }

  /** So purging does leak: one interrupted start, and the slot outlives every completed one. */
  lemma LeakExample(final: Db)
    requires Attempt(Db(map[], {7}), final, {}, true)
    ensures Attempt(Db(map[7 := Ready], {7}), Db(map[], {7}), {}, false)
    ensures 7 in final.slots
  {
    assert Reaches(Db(map[7 := Ready], {7}), Db(map[], {7}), {}, Cut({}, {7}, Some(7)));
    SlotKeptIff(Db(map[], {7}), final, {}, 7);
  }
}
