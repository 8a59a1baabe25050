/**
  Replication slot names (crates/etl-postgres/src/replication/slots.rs): building them,
  reading them back, and matching one pipeline's slots for deletion.
*/
module SlotNames {
  import opened Wrappers
  import opened Decimal

  const MAX_SLOT_NAME_LENGTH := 63
  const APPLY_WORKER_PREFIX := "supabase_etl_apply"
  const TABLE_SYNC_WORKER_PREFIX := "supabase_etl_table_sync"
  const MAX_U64 := 18446744073709551615
  const MAX_U32 := 4294967295

  datatype Slot = Apply(pipeline: nat) | TableSync(pipeline: nat, table: nat)

  predicate ValidSlot(slot: Slot) {
    slot.pipeline <= MAX_U64 && (slot.TableSync? ==> slot.table <= MAX_U32)
  }

  function Text(slot: Slot): string {
    match slot
    case Apply(p) => APPLY_WORKER_PREFIX + ("_" + OfNat(p))
    case TableSync(p, t) => TABLE_SYNC_WORKER_PREFIX + ("_" + (OfNat(p) + "_" + OfNat(t)))
  }

  /** The slot's name, unless it is too long for PostgreSQL. */
  function Name(slot: Slot): Option<string> {
    if |Text(slot)| > MAX_SLOT_NAME_LENGTH then None else Some(Text(slot))
  }

  /** Reads an unsigned decimal as the standard library does: a plus sign and leading zeros are allowed. */
  function ParseNumber(s: string, max: nat): Option<nat> {
    var digits := if s != "" && s[0] == '+' then s[1..] else s;
    if digits != "" && AllDigits(digits) && ToNat(digits) <= max then Some(ToNat(digits)) else None
  }

  /** Index of the last underscore. */
  function LastUnderscore(s: string): (i: Option<nat>)
    ensures i.Some? ==> i.value < |s| && s[i.value] == '_' && '_' !in s[i.value + 1..]
    ensures i.None? ==> '_' !in s
  {
    if s == "" then None
    else if s[|s| - 1] == '_' then Some(|s| - 1)
    else LastUnderscore(s[..|s| - 1])
  }

  function ParseAfterApply(rest: string): Option<Slot> {
    if rest == "" || rest[0] != '_' then None
    else
      match ParseNumber(rest[1..], MAX_U64)
      case Some(p) => Some(Apply(p))
      case None => None
  }

  function ParseAfterTableSync(rest: string): Option<Slot> {
    if rest == "" || rest[0] != '_' then None
    else
      var ids := rest[1..];
      match LastUnderscore(ids)
      case None => None
      case Some(i) =>
        var p, t := ParseNumber(ids[..i], MAX_U64), ParseNumber(ids[i + 1..], MAX_U32);
        if p.Some? && t.Some? then Some(TableSync(p.value, t.value)) else None
  }

  function Parse(name: string): Option<Slot> {
    if APPLY_WORKER_PREFIX <= name then ParseAfterApply(name[|APPLY_WORKER_PREFIX|..])
    else if TABLE_SYNC_WORKER_PREFIX <= name then ParseAfterTableSync(name[|TABLE_SYNC_WORKER_PREFIX|..])
    else None
  }

  lemma ParsePrinted(n: nat, max: nat)
    requires n <= max
    ensures ParseNumber(OfNat(n), max) == Some(n)
  {
    ToNatOfNat(n);
    assert IsDigit(OfNat(n)[0]);
  }

  lemma {:induction false} LastUnderscoreOf(a: string, b: string)
    requires '_' !in b
    ensures LastUnderscore(a + "_" + b) == Some(|a|)
    decreases |b|
  {
    var s := a + "_" + b;
    if b == "" {
      assert s == a + "_";
    } else {
      assert s[..|s| - 1] == a + "_" + b[..|b| - 1];
      LastUnderscoreOf(a, b[..|b| - 1]);
    }
  }

  lemma DigitsHaveNoUnderscore(n: nat)
    ensures '_' !in OfNat(n)
  {
  }

  lemma ParseAfterTableSyncOf(p: nat, t: nat)
    requires p <= MAX_U64 && t <= MAX_U32
    ensures ParseAfterTableSync("_" + (OfNat(p) + "_" + OfNat(t))) == Some(TableSync(p, t))
  {
    var ids := OfNat(p) + "_" + OfNat(t);
    assert ("_" + ids)[1..] == ids;
    DigitsHaveNoUnderscore(t);
    LastUnderscoreOf(OfNat(p), OfNat(t));
    assert ids[..|OfNat(p)|] == OfNat(p) && ids[|OfNat(p)| + 1..] == OfNat(t);
    ParsePrinted(p, MAX_U64);
    ParsePrinted(t, MAX_U32);
  }

  lemma ParseAfterApplyOf(p: nat)
    requires p <= MAX_U64
    ensures ParseAfterApply("_" + OfNat(p)) == Some(Apply(p))
  {
    assert ("_" + OfNat(p))[1..] == OfNat(p);
    ParsePrinted(p, MAX_U64);
  }

  lemma PrefixesDiffer(name: string)
    requires TABLE_SYNC_WORKER_PREFIX <= name
    ensures !(APPLY_WORKER_PREFIX <= name)
  {
    assert name[13] == TABLE_SYNC_WORKER_PREFIX[13] == 't';
    assert APPLY_WORKER_PREFIX[13] == 'a';
  }

  lemma Lengths(slot: Slot)
    requires ValidSlot(slot)
    ensures |Text(slot)| <= 55
  {
    assert Pow10(0) == 1;
    PowersForIds();
    OfNatLength(slot.pipeline, 20);
    if slot.TableSync? { OfNatLength(slot.table, 10); }
  }

  lemma PowersForIds()
    ensures MAX_U64 < Pow10(20) && MAX_U32 < Pow10(10)
  {
    assert Pow10(5) == 100000;
    assert Pow10(10) == 10000000000;
    assert Pow10(15) == 1000000000000000;
    assert Pow10(20) == 100000000000000000000;
  }

  /** Every slot of the engine has a name, and reading the name back gives the slot. */
  lemma SlotRoundTrip(slot: Slot)
    requires ValidSlot(slot)
    ensures Name(slot).Some? && Parse(Name(slot).value) == Some(slot)
  {
    Lengths(slot);
    var name := Text(slot);
    match slot
    case Apply(p) =>
      assert name[|APPLY_WORKER_PREFIX|..] == "_" + OfNat(p);
      ParseAfterApplyOf(p);
    case TableSync(p, t) =>
      PrefixesDiffer(name);
      assert name[|TABLE_SYNC_WORKER_PREFIX|..] == "_" + (OfNat(p) + "_" + OfNat(t));
      ParseAfterTableSyncOf(p, t);
  }

  // Matching for deletion.

  /** SQL `LIKE` with a backslash as the escape character. */
  predicate Like(pattern: string, s: string)
    decreases |pattern| + |s|
  {
    if pattern == "" then s == ""
    else if pattern[0] == '%' then Like(pattern[1..], s) || (s != "" && Like(pattern, s[1..]))
    else if pattern[0] == '\\' then |pattern| > 1 && s != "" && s[0] == pattern[1] && Like(pattern[2..], s[1..])
    else s != "" && (pattern[0] == '_' || pattern[0] == s[0]) && Like(pattern[1..], s[1..])
  }

  /** Underscores escaped. */
  function Escaped(s: string): string {
    if s == "" then "" else (if s[0] == '_' then "\\_" else [s[0]]) + Escaped(s[1..])
  }

  predicate PlainText(s: string) {
    '%' !in s && '\\' !in s
  }

  lemma {:induction false} PercentMatchesAll(s: string)
    ensures Like("%", s)
    decreases |s|
  {
    if s == "" { assert "%"[1..] == ""; } else { PercentMatchesAll(s[1..]); }
  }

  /** An escaped prefix followed by `%` matches exactly the strings that start with the prefix. */
  lemma {:induction false} LikePrefix(prefix: string, s: string)
    requires PlainText(prefix)
    ensures Like(Escaped(prefix) + "%", s) <==> prefix <= s
    decreases |prefix|
  {
    var pattern := Escaped(prefix) + "%";
    if prefix == "" {
      assert pattern == "%";
      PercentMatchesAll(s);
    } else {
      var rest := Escaped(prefix[1..]) + "%";
      assert pattern == (if prefix[0] == '_' then "\\_" else [prefix[0]]) + rest;
      if prefix[0] == '_' { assert pattern[2..] == rest; } else { assert pattern[1..] == rest; }
      if s != "" {
        LikePrefix(prefix[1..], s[1..]);
        assert prefix <= s <==> prefix[0] == s[0] && prefix[1..] <= s[1..];
      }
    }
  }

  function TableSyncPrefix(p: nat): string {
    TABLE_SYNC_WORKER_PREFIX + ("_" + (OfNat(p) + "_"))
  }

  /** The condition of the deletion query. */
  predicate Selected(p: nat, name: string) {
    name == Text(Apply(p)) || Like(Escaped(TableSyncPrefix(p)) + "%", name)
  }

  lemma PrefixIsPlain(p: nat)
    ensures PlainText(TableSyncPrefix(p))
  {
  }

  lemma DigitsThenUnderscore(a: string, b: string, rest: string)
    requires '_' !in a && '_' !in b && a + "_" <= b + "_" + rest
    ensures a == b
  {
    var s := b + "_" + rest;
    assert s[|a|] == (a + "_")[|a|] == '_' && s[|b|] == '_';
    assert forall i :: 0 <= i < |a| ==> s[i] == (a + "_")[i] == a[i] && a[i] in a;
    assert forall i :: 0 <= i < |b| ==> s[i] == b[i] && b[i] in b;
    assert a == s[..|a|] && b == s[..|b|];
  }

  lemma SamePrefix(a: string, b: string, c: string)
    ensures a + b <= a + c <==> b <= c
  {
    if a + b <= a + c { assert b == (a + b)[|a|..] && c == (a + c)[|a|..]; }
  }

  lemma TableSyncPrefixIff(p: nat, q: nat, t: nat)
    ensures TableSyncPrefix(p) <= Text(TableSync(q, t)) <==> p == q
  {
    SamePrefix(TABLE_SYNC_WORKER_PREFIX, "_" + (OfNat(p) + "_"), "_" + (OfNat(q) + "_" + OfNat(t)));
    SamePrefix("_", OfNat(p) + "_", OfNat(q) + "_" + OfNat(t));
    DigitsHaveNoUnderscore(p);
    DigitsHaveNoUnderscore(q);
    if OfNat(p) + "_" <= OfNat(q) + "_" + OfNat(t) {
      DigitsThenUnderscore(OfNat(p), OfNat(q), OfNat(t));
      OfNatInjective(p, q);
    }
  }

  lemma ApplyTextIff(p: nat, q: nat)
    ensures Text(Apply(p)) == Text(Apply(q)) <==> p == q
  {
    var a := APPLY_WORKER_PREFIX;
    if Text(Apply(p)) == Text(Apply(q)) {
      assert OfNat(p) == Text(Apply(p))[|a| + 1..] && OfNat(q) == Text(Apply(q))[|a| + 1..];
      OfNatInjective(p, q);
    }
  }

  /** Deleting the slots of one pipeline selects all of them and no slot of another pipeline. */
  lemma SelectsOwnSlots(p: nat, slot: Slot)
    ensures Selected(p, Text(slot)) <==> slot.pipeline == p
  {
    var name := Text(slot);
    PrefixIsPlain(p);
    LikePrefix(TableSyncPrefix(p), name);
    match slot
    case Apply(q) =>
      ApplyTextIff(p, q);
      if TableSyncPrefix(p) <= name { PrefixesDiffer(name); }
    case TableSync(q, t) =>
      TableSyncPrefixIff(p, q, t);
      PrefixesDiffer(name);
  }
}
