/**
  Destination table names (crates/etl-destinations/src/table_name.rs): schema and table in
  one identifier, underscores doubled and a single underscore in between.
*/
module TableNames {
  import opened Wrappers

  datatype TableName = TableName(schema: string, name: string)

  datatype NameError = OuterUnderscore | EmptyComponent

  datatype Encoded = Ok(text: string) | Rejected(error: NameError)

  function Escape(s: string): string {
    if s == "" then "" else (if s[0] == '_' then "__" else [s[0]]) + Escape(s[1..])
  }

  function EncodeComponent(s: string): Encoded {
    if s != "" && (s[0] == '_' || s[|s| - 1] == '_') then Rejected(OuterUnderscore)
    else if s == "" then Rejected(EmptyComponent)
    else Ok(Escape(s))
  }

  function Encode(n: TableName): Encoded {
    var schema := EncodeComponent(n.schema);
    if schema.Rejected? then schema
    else
      var name := EncodeComponent(n.name);
      if name.Rejected? then name else Ok(schema.text + "_" + name.text)
  }

  predicate Accepted(s: string) {
    s != "" && s[0] != '_' && s[|s| - 1] != '_'
  }

  /** Reads an escaped component up to the end or a lone underscore. */
  function Unescape(s: string): (r: (string, string))
    ensures |r.1| <= |s|
    decreases |s|
  {
    if s == "" || (s[0] == '_' && (|s| == 1 || s[1] != '_')) then ("", s)
    else
      var k := if s[0] == '_' then 2 else 1;
      var rest := Unescape(s[k..]);
      ([s[0]] + rest.0, rest.1)
  }

  function Decode(s: string): Option<TableName> {
    var first := Unescape(s);
    if first.1 == "" then None
    else
      var second := Unescape(first.1[1..]);
      if second.1 == "" then Some(TableName(first.0, second.0)) else None
  }

  lemma EscapeEnds(s: string)
    requires Accepted(s)
    ensures Escape(s) != "" && Escape(s)[0] != '_' && Escape(s)[|Escape(s)| - 1] != '_'
  {
    EscapeLast(s);
  }

  lemma {:induction false} EscapeLast(s: string)
    requires s != "" && s[|s| - 1] != '_'
    ensures Escape(s) != "" && Escape(s)[|Escape(s)| - 1] == s[|s| - 1]
    decreases |s|
  {
    if |s| == 1 {
      assert s[1..] == "";
    } else {
      EscapeLast(s[1..]);
    }
  }

  /** What follows an escaped component is a lone underscore or nothing. */
  predicate Ends(rest: string) {
    rest == "" || (rest[0] == '_' && (|rest| == 1 || rest[1] != '_'))
  }

  lemma {:induction false} UnescapeEscape(s: string, rest: string)
    requires (s == "" || s[|s| - 1] != '_') && Ends(rest)
    ensures Unescape(Escape(s) + rest) == (s, rest)
    decreases |s|
  {
    var text := Escape(s) + rest;
    if s == "" {
      assert text == rest;
    } else {
      var tail := Escape(s[1..]) + rest;
      if s[0] == '_' { assert text[2..] == tail; } else { assert text[1..] == tail; }
      UnescapeEscape(s[1..], rest);
      assert s == [s[0]] + s[1..];
    }
  }

  /**
    A name is rejected exactly if a component is empty or has an outer underscore, for what
    is wrong with the first such component; otherwise it can be read back.
  */
  lemma EncodeRoundTrip(n: TableName)
    ensures Encode(n).Ok? <==> Accepted(n.schema) && Accepted(n.name)
    ensures Encode(n).Ok? ==> Decode(Encode(n).text) == Some(n)
    ensures Encode(n).Rejected? ==>
      Encode(n).error == if (if Accepted(n.schema) then n.name else n.schema) == "" then EmptyComponent else OuterUnderscore
  {
    if Encode(n).Ok? {
      var a, b := Escape(n.schema), Escape(n.name);
      EscapeEnds(n.name);
      assert a + "_" + b == a + ("_" + b);
      UnescapeEscape(n.schema, "_" + b);
      assert ("_" + b)[1..] == b && b + "" == b;
      UnescapeEscape(n.name, "");
    }
  }

  /** Two accepted names never share a destination table. */
  lemma EncodeInjective(m: TableName, n: TableName)
    requires Encode(m).Ok? && Encode(m) == Encode(n)
    ensures m == n
  {
    EncodeRoundTrip(m);
    EncodeRoundTrip(n);
  }

  lemma {:induction false} EscapeConcat(a: string, b: string)
    ensures Escape(a + b) == Escape(a) + Escape(b)
    decreases |a|
  {
    if a == "" {
      assert a + b == b;
    } else {
      assert (a + b)[1..] == a[1..] + b;
      EscapeConcat(a[1..], b);
    }
  }

  /** Without the check on outer underscores, moving one across the separator gives the same text. */
  lemma UncheckedCollision(a: string, b: string)
    ensures Escape(a) + "_" + Escape("_" + b) == Escape(a + "_") + "_" + Escape(b)
  {
    assert "_"[1..] == "" && Escape("_") == "__";
    EscapeConcat("_", b);
    EscapeConcat(a, "_");
    assert Escape(a) + "_" + ("__" + Escape(b)) == Escape(a) + "__" + "_" + Escape(b);
  }

  // Runs of underscores.

  /** `s[i..j]` is a longest stretch of underscores. */
  predicate Run(s: string, i: nat, j: nat) {
    && i < j <= |s|
    && (forall k :: i <= k < j ==> s[k] == '_')
    && (i == 0 || s[i - 1] != '_')
    && (j == |s| || s[j] != '_')
  }

  predicate Paired(s: string)
    decreases |s|
  {
    if s == "" then true
    else if s[0] == '_' then |s| >= 2 && s[1] == '_' && Paired(s[2..])
    else Paired(s[1..])
  }

  lemma {:induction false} EscapePaired(s: string)
    ensures Paired(Escape(s))
    decreases |s|
  {
    if s != "" {
      EscapePaired(s[1..]);
      var e := Escape(s);
      if s[0] == '_' { assert e[2..] == Escape(s[1..]); } else { assert e[1..] == Escape(s[1..]); }
    }
  }

  lemma {:induction false} PairedRunsEven(s: string, i: nat, j: nat)
    requires Paired(s) && Run(s, i, j)
    ensures (j - i) % 2 == 0
    decreases |s|
  {
    if s[0] != '_' {
      assert Run(s[1..], i - 1, j - 1);
      PairedRunsEven(s[1..], i - 1, j - 1);
    } else if i == 0 {
      if j > 2 {
        assert Run(s[2..], 0, j - 2);
        PairedRunsEven(s[2..], 0, j - 2);
      }
    } else {
      assert i > 2;
      assert Run(s[2..], i - 2, j - 2);
      PairedRunsEven(s[2..], i - 2, j - 2);
    }
  }

  lemma RunInJoin(a: string, b: string, i: nat, j: nat)
    requires a != "" && a[|a| - 1] != '_' && b != "" && b[0] != '_'
    ensures Run(a + "_" + b, i, j) ==>
            Run(a, i, j) || (i == |a| && j == |a| + 1) || (i > |a| && Run(b, i - |a| - 1, j - |a| - 1))
    ensures Run(a + "_" + b, |a|, |a| + 1)
  {
    var s := a + "_" + b;
    assert s[|a| - 1] == a[|a| - 1] && s[|a|] == '_' && s[|a| + 1] == b[0];
    assert forall k :: 0 <= k < |a| ==> s[k] == a[k];
    assert forall k :: 0 <= k < |b| ==> s[|a| + 1 + k] == b[k];
    if Run(s, i, j) && i > |a| {
      assert i > |a| + 1;
      assert s[i - 1] == b[i - |a| - 2];
    }
  }

  /** In an encoded name the separator is the one run of underscores with odd length. */
  lemma SeparatorIsTheOddRun(n: TableName, i: nat, j: nat)
    requires Encode(n).Ok?
    ensures Run(Encode(n).text, i, j) && (j - i) % 2 == 1 <==> i == |Escape(n.schema)| && j == i + 1
  {
    var a, b := Escape(n.schema), Escape(n.name);
    assert Accepted(n.schema) && Accepted(n.name);
    EscapeEnds(n.schema);
    EscapeEnds(n.name);
    RunInJoin(a, b, i, j);
    EscapePaired(n.schema);
    EscapePaired(n.name);
    if Run(a, i, j) { PairedRunsEven(a, i, j); }
    if i > |a| && j > |a| && Run(b, i - |a| - 1, j - |a| - 1) { PairedRunsEven(b, i - |a| - 1, j - |a| - 1); }
  }
}
