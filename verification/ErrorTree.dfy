/**
  Error values of the replication engine (crates/etl/src/error.rs): single errors and
  aggregates of them, their kinds, equality and hashing.
*/
module ErrorTree {
  import opened Wrappers

  /** A variant of `ErrorKind`, by its name. */
  datatype ErrorKind = ErrorKind(name: string)

  const UNKNOWN := ErrorKind("Unknown")
  const INVALID_STATE := ErrorKind("InvalidState")
  const TABLE_SYNC_WORKER_PANIC := ErrorKind("TableSyncWorkerPanic")

  datatype EtlError =
    | Single(kind: ErrorKind, description: string, detail: Option<string>)
    | Many(errors: seq<EtlError>)

  /** The kind of the leftmost error; an aggregate without errors is of unknown kind. */
  function Kind(e: EtlError): ErrorKind
    decreases e
  {
    match e
    case Single(kind, _, _) => kind
    case Many(errors) => if errors == [] then UNKNOWN else Kind(errors[0])
  }

  function Kinds(e: EtlError): seq<ErrorKind>
    decreases e
  {
    match e
    case Single(kind, _, _) => [kind]
    case Many(errors) => KindsAll(errors)
  }

  function KindsAll(errors: seq<EtlError>): seq<ErrorKind>
    decreases errors
  {
    if errors == [] then [] else Kinds(errors[0]) + KindsAll(errors[1..])
  }

  function CountLeaves(e: EtlError): nat
    decreases e
  {
    match e
    case Single(_, _, _) => 1
    case Many(errors) => CountAll(errors)
  }

  function CountAll(errors: seq<EtlError>): nat
    decreases errors
  {
    if errors == [] then 0 else CountLeaves(errors[0]) + CountAll(errors[1..])
  }

  lemma {:induction false} KindsConcat(a: seq<EtlError>, b: seq<EtlError>)
    ensures KindsAll(a + b) == KindsAll(a) + KindsAll(b)
    decreases |a|
  {
    if a == [] {
      assert a + b == b;
    } else {
      assert (a + b)[1..] == a[1..] + b;
      KindsConcat(a[1..], b);
    }
  }

  /** The reported number of errors is the number of kinds. */
  lemma {:induction false} CountIsKinds(e: EtlError)
    ensures CountLeaves(e) == |Kinds(e)|
    decreases e
  {
    if e.Many? { CountAllIsKinds(e.errors); }
  }

  lemma {:induction false} CountAllIsKinds(errors: seq<EtlError>)
    ensures CountAll(errors) == |KindsAll(errors)|
    decreases errors
  {
    if errors != [] {
      CountIsKinds(errors[0]);
      CountAllIsKinds(errors[1..]);
    }
  }

  /** Going down the first errors ends at a single error, not at an empty aggregate. */
  predicate LeftmostIsSingle(e: EtlError)
    decreases e
  {
    e.Single? || (e.errors != [] && LeftmostIsSingle(e.errors[0]))
  }

  lemma {:induction false} KindByLeftmost(e: EtlError)
    ensures LeftmostIsSingle(e) ==> Kinds(e) != [] && Kind(e) == Kinds(e)[0]
    ensures !LeftmostIsSingle(e) ==> Kind(e) == UNKNOWN
    decreases e
  {
    if e.Many? && e.errors != [] { KindByLeftmost(e.errors[0]); }
  }

  /**
    `kind` is the first of `kinds`, or unknown if there are none, exactly unless the
    leftmost path ends in an empty aggregate and the first kind is not itself unknown.
  */
  lemma KindIsFirstKind(e: EtlError)
    ensures Kind(e) == (if Kinds(e) == [] then UNKNOWN else Kinds(e)[0]) <==>
            LeftmostIsSingle(e) || Kinds(e) == [] || Kinds(e)[0] == UNKNOWN
  {
    KindByLeftmost(e);
  }

  lemma KindIsNotFirstKind()
    ensures var e := Many([Many([]), Single(INVALID_STATE, "", None)]);
            Kinds(e) == [INVALID_STATE] && Kind(e) == UNKNOWN && UNKNOWN != INVALID_STATE
  {
    var s := Single(INVALID_STATE, "", None);
    assert [Many([]), s][1..] == [s] && [s][1..] == [];
    assert KindsAll([s]) == Kinds(s) + KindsAll([]) == [INVALID_STATE];
    assert KindsAll([Many([]), s]) == Kinds(Many([])) + KindsAll([s]);
    assert UNKNOWN.name[0] != INVALID_STATE.name[0];
  }

  /** Aggregates a vector of errors; one error stays as it is. */
  function Aggregate(errors: seq<EtlError>): EtlError {
    if |errors| == 1 then errors[0] else Many(errors)
  }

  /** No aggregate in the tree is empty or wraps a single error. */
  predicate Proper(e: EtlError)
    decreases e
  {
    e.Single? || (|e.errors| >= 2 && forall i :: 0 <= i < |e.errors| ==> Proper(e.errors[i]))
  }

  /** Aggregation keeps every kind in order, and trees of workers' errors stay proper. */
  lemma AggregateKeepsKinds(errors: seq<EtlError>)
    ensures Kinds(Aggregate(errors)) == KindsAll(errors)
    ensures errors != [] && (forall i :: 0 <= i < |errors| ==> Proper(errors[i])) ==> Proper(Aggregate(errors))
  {
  }

  /** In a proper tree the leftmost path ends at a single error. */
  lemma {:induction false} ProperReachesSingle(e: EtlError)
    requires Proper(e)
    ensures LeftmostIsSingle(e)
    decreases e
  {
    if e.Many? { ProperReachesSingle(e.errors[0]); }
  }

  // Equality.

  predicate Equal(a: EtlError, b: EtlError)
    decreases a
  {
    match (a, b)
    case (Single(k, _, _), Single(l, _, _)) => k == l
    case (Many(x), Many(y)) => |x| == |y| && forall i :: 0 <= i < |x| ==> Equal(x[i], y[i])
    case _ => false
  }

  lemma {:induction false} EqualReflexive(a: EtlError)
    ensures Equal(a, a)
    decreases a
  {
    if a.Many? {
      forall i | 0 <= i < |a.errors| ensures Equal(a.errors[i], a.errors[i]) { EqualReflexive(a.errors[i]); }
    }
  }

  lemma {:induction false} EqualSymmetric(a: EtlError, b: EtlError)
    requires Equal(a, b)
    ensures Equal(b, a)
    decreases a
  {
    if a.Many? {
      forall i | 0 <= i < |a.errors| ensures Equal(b.errors[i], a.errors[i]) { EqualSymmetric(a.errors[i], b.errors[i]); }
    }
  }

  lemma {:induction false} EqualTransitive(a: EtlError, b: EtlError, c: EtlError)
    requires Equal(a, b) && Equal(b, c)
    ensures Equal(a, c)
    decreases a
  {
    if a.Many? {
      forall i | 0 <= i < |a.errors| ensures Equal(a.errors[i], c.errors[i]) {
        EqualTransitive(a.errors[i], b.errors[i], c.errors[i]);
      }
    }
  }

  // Hashing.

  /** One call on the hasher. */
  datatype Token = Discriminant(many: bool) | KindToken(kind: ErrorKind) | Text(text: string) | Length(n: nat)

  function Tokens(e: EtlError): seq<Token>
    decreases e
  {
    match e
    case Single(kind, description, _) => [Discriminant(false), KindToken(kind), Text(description)]
    case Many(errors) => [Discriminant(true), Length(|errors|)] + TokensAll(errors)
  }

  function TokensAll(errors: seq<EtlError>): seq<Token>
    decreases errors
  {
    if errors == [] then [] else Tokens(errors[0]) + TokensAll(errors[1..])
  }

  class Hasher {
    var stream: seq<Token>

    method Feed(e: EtlError)
      modifies this
      ensures stream == old(stream) + Tokens(e)
      decreases e
    {
      match e
      case Single(kind, description, _) =>
        stream := stream + [Discriminant(false)] + [KindToken(kind)] + [Text(description)];
      case Many(errors) =>
        stream := stream + [Discriminant(true)] + [Length(|errors|)];
        var i := 0;
        while i < |errors|
          invariant 0 <= i <= |errors|
          invariant stream + TokensAll(errors[i..]) == old(stream) + Tokens(e)
        {
          assert errors[i..][1..] == errors[i + 1..];
          assert TokensAll(errors[i..]) == Tokens(errors[i]) + TokensAll(errors[i + 1..]);
          Feed(errors[i]);
          i := i + 1;
        }
    }
  }

  /** What the hash looks at: the shape, the kinds and the descriptions. */
  function Hashed(e: EtlError): EtlError
    decreases e
  {
    match e
    case Single(kind, description, _) => Single(kind, description, None)
    case Many(errors) => Many(HashedAll(errors))
  }

  function HashedAll(errors: seq<EtlError>): (r: seq<EtlError>)
    ensures |r| == |errors|
    decreases errors
  {
    if errors == [] then [] else [Hashed(errors[0])] + HashedAll(errors[1..])
  }

  /** Reads one error back from the front of a stream. */
  function Decode(s: seq<Token>): (r: Option<(EtlError, seq<Token>)>)
    ensures r.Some? ==> |r.value.1| < |s|
    decreases |s|, 0
  {
    if s == [] || !s[0].Discriminant? then None
    else if s[0].many then
      if |s| < 2 || !s[1].Length? then None
      else
        match DecodeAll(s[2..], s[1].n)
        case Some(found) => Some((Many(found.0), found.1))
        case None => None
    else if |s| < 3 || !s[1].KindToken? || !s[2].Text? then None
    else Some((Single(s[1].kind, s[2].text, None), s[3..]))
  }

  function DecodeAll(s: seq<Token>, n: nat): (r: Option<(seq<EtlError>, seq<Token>)>)
    ensures r.Some? ==> |r.value.1| <= |s|
    decreases |s|, 1
  {
    if n == 0 then Some(([], s))
    else
      match Decode(s)
      case None => None
      case Some(first) =>
        match DecodeAll(first.1, n - 1)
        case None => None
        case Some(rest) => Some(([first.0] + rest.0, rest.1))
  }

  /** Whatever follows it, the part of the stream an error wrote can be read back. */
  lemma {:induction false} HashDecodes(e: EtlError, rest: seq<Token>)
    ensures Decode(Tokens(e) + rest) == Some((Hashed(e), rest))
    decreases e
  {
    var s := Tokens(e) + rest;
    if e.Single? {
      assert s[3..] == rest;
    } else {
      assert s[2..] == TokensAll(e.errors) + rest;
      HashAllDecodes(e.errors, rest);
    }
  }

  lemma {:induction false} HashAllDecodes(errors: seq<EtlError>, rest: seq<Token>)
    ensures DecodeAll(TokensAll(errors) + rest, |errors|) == Some((HashedAll(errors), rest))
    decreases errors
  {
    if errors == [] {
      assert TokensAll(errors) + rest == rest;
    } else {
      var tail := TokensAll(errors[1..]) + rest;
      assert TokensAll(errors) + rest == Tokens(errors[0]) + tail;
      HashDecodes(errors[0], tail);
      HashAllDecodes(errors[1..], rest);
    }
  }

  lemma {:induction false} HashedDeterminesTokens(e: EtlError)
    ensures Tokens(Hashed(e)) == Tokens(e)
    decreases e
  {
    if e.Many? { HashedAllDetermines(e.errors); }
  }

  lemma {:induction false} HashedAllDetermines(errors: seq<EtlError>)
    ensures TokensAll(HashedAll(errors)) == TokensAll(errors)
    decreases errors
  {
    if errors != [] {
      HashedDeterminesTokens(errors[0]);
      HashedAllDetermines(errors[1..]);
      assert HashedAll(errors)[1..] == HashedAll(errors[1..]);
    }
  }

  /** Two errors feed the hasher alike exactly if they agree on shape, kinds and descriptions. */
  lemma HashExact(a: EtlError, b: EtlError)
    ensures Tokens(a) == Tokens(b) <==> Hashed(a) == Hashed(b)
  {
    assert Tokens(a) + [] == Tokens(a) && Tokens(b) + [] == Tokens(b);
    HashDecodes(a, []);
    HashDecodes(b, []);
    HashedDeterminesTokens(a);
    HashedDeterminesTokens(b);
  }

  function Descriptions(e: EtlError): seq<string>
    decreases e
  {
    match e
    case Single(_, description, _) => [description]
    case Many(errors) => DescriptionsAll(errors)
  }

  function DescriptionsAll(errors: seq<EtlError>): seq<string>
    decreases errors
  {
    if errors == [] then [] else Descriptions(errors[0]) + DescriptionsAll(errors[1..])
  }

  lemma {:induction false} SplitEqual(a: seq<string>, b: seq<string>, c: seq<string>, d: seq<string>)
    requires |a| == |c|
    ensures a + b == c + d <==> a == c && b == d
  {
    if a + b == c + d {
      assert a == (a + b)[..|a|] && c == (c + d)[..|a|] && b == (a + b)[|a|..] && d == (c + d)[|a|..];
    }
  }

  lemma {:induction false} EqualTails(x: seq<EtlError>, y: seq<EtlError>)
    requires Equal(Many(x), Many(y)) && x != []
    ensures Equal(x[0], y[0]) && Equal(Many(x[1..]), Many(y[1..]))
  {
  }

  lemma {:induction false} EqualThenHashed(a: EtlError, b: EtlError)
    requires Equal(a, b)
    ensures |Descriptions(a)| == |Descriptions(b)|
    ensures Hashed(a) == Hashed(b) <==> Descriptions(a) == Descriptions(b)
    decreases a
  {
    if a.Many? { EqualAllThenHashed(a.errors, b.errors); }
  }

  lemma {:induction false} EqualAllThenHashed(x: seq<EtlError>, y: seq<EtlError>)
    requires Equal(Many(x), Many(y))
    ensures |DescriptionsAll(x)| == |DescriptionsAll(y)|
    ensures HashedAll(x) == HashedAll(y) <==> DescriptionsAll(x) == DescriptionsAll(y)
    decreases x
  {
    if x != [] {
      EqualTails(x, y);
      EqualThenHashed(x[0], y[0]);
      EqualAllThenHashed(x[1..], y[1..]);
      SplitEqual(Descriptions(x[0]), DescriptionsAll(x[1..]), Descriptions(y[0]), DescriptionsAll(y[1..]));
      assert HashedAll(x)[0] == Hashed(x[0]) && HashedAll(x)[1..] == HashedAll(x[1..]);
      assert HashedAll(y)[0] == Hashed(y[0]) && HashedAll(y)[1..] == HashedAll(y[1..]);
    }
  }

  /** Equal errors feed the hasher alike exactly if their descriptions agree, leaf by leaf. */
  lemma EqualHashIffDescriptions(a: EtlError, b: EtlError)
    requires Equal(a, b)
    ensures Tokens(a) == Tokens(b) <==> Descriptions(a) == Descriptions(b)
  {
    HashExact(a, b);
    EqualThenHashed(a, b);
  }

  /** Errors that feed the hasher alike are equal. */
  lemma {:induction false} SameHashedEqual(a: EtlError, b: EtlError)
    requires Hashed(a) == Hashed(b)
    ensures Equal(a, b)
    decreases a
  {
    if a.Many? {
      forall i | 0 <= i < |a.errors| ensures Equal(a.errors[i], b.errors[i]) {
        HashedAt(a.errors, i);
        HashedAt(b.errors, i);
        SameHashedEqual(a.errors[i], b.errors[i]);
      }
    }
  }

  lemma {:induction false} HashedAt(errors: seq<EtlError>, i: nat)
    requires i < |errors|
    ensures HashedAll(errors)[i] == Hashed(errors[i])
    decreases |errors|
  {
    if i > 0 { HashedAt(errors[1..], i - 1); }
  }

  lemma SameHashEqual(a: EtlError, b: EtlError)
    requires Tokens(a) == Tokens(b)
    ensures Equal(a, b)
  {
    HashExact(a, b);
    SameHashedEqual(a, b);
  }

  /** So equal values do not always hash alike, which a hash map relies on. */
  lemma EqualButHashedApart()
    ensures var a, b := Single(UNKNOWN, "x", None), Single(UNKNOWN, "y", None);
            Equal(a, b) && Tokens(a) != Tokens(b)
  {
  }
}
