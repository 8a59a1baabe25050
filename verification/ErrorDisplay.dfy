/**
  Rendering an error tree as text (crates/etl/src/error.rs): one line per error, drawn
  as a tree with box-drawing characters.
*/
module ErrorDisplay {
  import opened Wrappers
  import opened Decimal
  import opened ErrorTree

  predicate IsWhitespace(c: char) {
    || '\t' <= c <= '\r' || c == ' ' || c == '\U{85}' || c == '\U{A0}' || c == '\U{1680}'
    || '\U{2000}' <= c <= '\U{200A}' || c == '\U{2028}' || c == '\U{2029}'
    || c == '\U{202F}' || c == '\U{205F}' || c == '\U{3000}'
  }

  predicate Blank(s: string) {
    forall i :: 0 <= i < |s| ==> IsWhitespace(s[i])
  }

  /** Index of the first newline, or the length. */
  function LineEnd(s: string): (n: nat)
    ensures n <= |s| && (forall i :: 0 <= i < n ==> s[i] != '\n') && (n < |s| ==> s[n] == '\n')
  {
    if s == "" || s[0] == '\n' then 0 else 1 + LineEnd(s[1..])
  }

  function DropReturn(line: string): string {
    if line != "" && line[|line| - 1] == '\r' then line[..|line| - 1] else line
  }

  /** The lines of a detail, joined by spaces; a final newline does not start another line. */
  function OneLine(s: string): (r: string)
    ensures '\n' !in r
    decreases |s|
  {
    var n := LineEnd(s);
    if n == |s| then s
    else if n + 1 == |s| then DropReturn(s[..n])
    else DropReturn(s[..n]) + " " + OneLine(s[n + 1..])
  }

  function LeafText(kind: ErrorKind, description: string, detail: Option<string>): string {
    "[" + kind.name + "] " + description
    + (if detail.Some? && !Blank(detail.value) then ": " + OneLine(detail.value) else "")
  }

  function CountText(n: nat): string {
    OfNat(n) + (if n == 1 then " error occurred" else " errors occurred")
  }

  function Head(e: EtlError): string {
    match e
    case Single(kind, description, detail) => LeafText(kind, description, detail)
    case Many(errors) => CountText(|errors|)
  }

  /** A line of the tree: for each level above it whether more siblings follow there, and its own text. */
  datatype Row = Row(more: seq<bool>, head: string)

  function Rows(e: EtlError, more: seq<bool>): (r: seq<Row>)
    ensures r != [] && r[0] == Row(more, Head(e))
    decreases e
  {
    [Row(more, Head(e))] + if e.Many? then ChildRows(e.errors, more) else []
  }

  function ChildRows(errors: seq<EtlError>, more: seq<bool>): seq<Row>
    decreases errors
  {
    if errors == [] then [] else Rows(errors[0], more + [|errors| > 1]) + ChildRows(errors[1..], more)
  }

  const BAR := "\U{2502}  "
  const GAP := "   "
  const TEE := "\U{251C}\U{2500} "
  const CORNER := "\U{2514}\U{2500} "

  function Bars(more: seq<bool>): (s: string)
    ensures |s| == 3 * |more|
  {
    if more == [] then "" else Bars(more[..|more| - 1]) + if more[|more| - 1] then BAR else GAP
  }

  /** Everything left of the text: bars for the levels above, then the branch. */
  function Margin(more: seq<bool>): (s: string)
    ensures |s| == 3 * |more|
  {
    if more == [] then "" else Bars(more[..|more| - 1]) + if more[|more| - 1] then TEE else CORNER
  }

  function RowText(row: Row): string {
    Margin(row.more) + row.head
  }

  function Texts(rows: seq<Row>): (r: seq<string>)
    ensures |r| == |rows|
    ensures forall i :: 0 <= i < |rows| ==> r[i] == RowText(rows[i])
  {
    if rows == [] then [] else [RowText(rows[0])] + Texts(rows[1..])
  }

  /** The lines, each after a newline. */
  function Below(lines: seq<string>): string {
    if lines == [] then "" else "\n" + lines[0] + Below(lines[1..])
  }

  function Join(lines: seq<string>): string
    requires lines != []
  {
    lines[0] + Below(lines[1..])
  }

  function Lines(e: EtlError, more: seq<bool>): (r: seq<string>)
    ensures r != []
  {
    Texts(Rows(e, more))
  }

  function ChildLines(errors: seq<EtlError>, more: seq<bool>): seq<string> {
    Texts(ChildRows(errors, more))
  }

  function Display(e: EtlError): string {
    Join(Lines(e, []))
  }

  lemma LinesTail(e: EtlError, more: seq<bool>)
    ensures Lines(e, more)[0] == Margin(more) + Head(e)
    ensures Lines(e, more)[1..] == if e.Many? then ChildLines(e.errors, more) else []
  {
  }

  lemma ChildLinesSplit(errors: seq<EtlError>, more: seq<bool>)
    requires errors != []
    ensures ChildLines(errors, more) == Lines(errors[0], more + [|errors| > 1]) + ChildLines(errors[1..], more)
  {
  }

  lemma ChildLinesBefore(errors: seq<EtlError>, more: seq<bool>, rest: seq<string>)
    ensures ChildLines(errors, more) + rest ==
            if errors == [] then rest else Lines(errors[0], more + [|errors| > 1]) + (ChildLines(errors[1..], more) + rest)
  {
  }

  lemma TailBefore(lines: seq<string>, rest: seq<string>)
    requires lines != []
    ensures (lines + rest)[0] == lines[0] && (lines + rest)[1..] == lines[1..] + rest
  {
  }

  lemma LinesBefore(e: EtlError, more: seq<bool>, rest: seq<string>)
    ensures var lines := Lines(e, more) + rest;
      && lines != [] && lines[0] == Margin(more) + Head(e)
      && lines[1..] == if e.Many? then ChildLines(e.errors, more) + rest else rest
  {
    LinesTail(e, more);
    TailBefore(Lines(e, more), rest);
    assert [] + rest == rest;
  }

  lemma {:induction false} BelowConcat(a: seq<string>, b: seq<string>)
    ensures Below(a + b) == Below(a) + Below(b)
    decreases |a|
  {
    if a == [] {
      assert a + b == b;
    } else {
      assert (a + b)[1..] == a[1..] + b;
      BelowConcat(a[1..], b);
    }
  }

  lemma BelowFirst(errors: seq<EtlError>, more: seq<bool>)
    requires errors != []
    ensures Below(ChildLines(errors, more)) ==
            "\n" + Join(Lines(errors[0], more + [|errors| > 1])) + Below(ChildLines(errors[1..], more))
  {
    ChildLinesSplit(errors, more);
    BelowJoin(Lines(errors[0], more + [|errors| > 1]), ChildLines(errors[1..], more));
  }

  lemma BelowIsJoin(lines: seq<string>)
    requires lines != []
    ensures Below(lines) == "\n" + Join(lines)
  {
  }

  lemma BelowJoin(a: seq<string>, b: seq<string>)
    requires a != []
    ensures Below(a + b) == "\n" + Join(a) + Below(b)
  {
    BelowConcat(a, b);
    BelowIsJoin(a);
  }

  lemma Assembled(out: string, margin: string, head: string, lines: seq<string>)
    requires lines != [] && lines[0] == margin + head
    ensures out + margin + head + Below(lines[1..]) == out + Join(lines)
  {
  }

  lemma Continued(out: string, line: string, below: string)
    ensures out + "\n" + line + below == out + ("\n" + line + below)
  {
  }

  class Formatter {
    var out: string

    method Write(s: string)
      modifies this
      ensures out == old(out) + s
    {
      out := out + s;
    }

    /** `write_error_tree`; `more` says what `prefix` and the flags stand for. */
    method WriteErrorTree(e: EtlError, prefix: string, isLast: bool, isRoot: bool, ghost more: seq<bool>)
      requires isRoot <==> more == []
      requires more != [] ==> prefix == Bars(more[..|more| - 1]) && isLast == !more[|more| - 1]
      modifies this
      ensures out == old(out) + Join(Lines(e, more))
      decreases e
    {
      ghost var start := out;
      if !isRoot {
        Write(prefix + if isLast then CORNER else TEE);
      }
      assert out == start + Margin(more);
      LinesTail(e, more);
      Assembled(start, Margin(more), Head(e), Lines(e, more));
      if e.Single? {
        Write(LeafText(e.kind, e.description, e.detail));
        assert out + "" == out;
      } else {
        Write(CountText(|e.errors|));
        WriteChildren(e.errors, if isRoot then "" else prefix + if isLast then GAP else BAR, more);
      }
    }

    /** The children, each on a new line. */
    method WriteChildren(errors: seq<EtlError>, childPrefix: string, ghost more: seq<bool>)
      requires childPrefix == Bars(more)
      modifies this
      ensures out == old(out) + Below(ChildLines(errors, more))
      decreases errors
    {
      var i := 0;
      assert errors[0..] == errors;
      while i < |errors|
        invariant 0 <= i <= |errors|
        invariant out + Below(ChildLines(errors[i..], more)) == old(out) + Below(ChildLines(errors, more))
      {
        ghost var start := out;
        var childIsLast := i + 1 == |errors|;
        ghost var mores := more + [!childIsLast];
        assert mores[..|mores| - 1] == more;
        Write("\n");
        WriteErrorTree(errors[i], childPrefix, childIsLast, false, mores);
        BelowFirst(errors[i..], more);
        assert errors[i..][1..] == errors[i + 1..];
        Continued(start, Join(Lines(errors[i], mores)), Below(ChildLines(errors[i + 1..], more)));
        i := i + 1;
      }
      assert errors[|errors|..] == [] && out + "" == out;
    }

    method Format(e: EtlError)
      modifies this
      ensures out == old(out) + Display(e)
    {
      WriteErrorTree(e, "", true, true, []);
    }
  }

  // The drawing is connected.

  /** Every row at or below a level continues the same path down to it. */
  lemma {:induction false} RowsExtend(e: EtlError, more: seq<bool>, r: nat)
    requires r < |Rows(e, more)|
    ensures more <= Rows(e, more)[r].more
    decreases e
  {
    if r > 0 { ChildRowsExtend(e.errors, more, r - 1); }
  }

  lemma {:induction false} ChildRowsExtend(errors: seq<EtlError>, more: seq<bool>, r: nat)
    requires r < |ChildRows(errors, more)|
    ensures more < ChildRows(errors, more)[r].more
    decreases errors
  {
    var first := Rows(errors[0], more + [|errors| > 1]);
    if r < |first| {
      RowsExtend(errors[0], more + [|errors| > 1], r);
      assert more < more + [|errors| > 1];
    } else {
      ChildRowsExtend(errors[1..], more, r - |first|);
    }
  }

  /** Where row `r` promises more siblings at level `j`, the next row shows a bar or a branch there. */
  predicate Connected(rows: seq<Row>, r: nat, j: nat) {
    r < |rows| && j < |rows[r].more| && rows[r].more[j] ==>
      && r + 1 < |rows|
      && j < |rows[r + 1].more|
      && rows[r + 1].more[..j] == rows[r].more[..j]
      && (rows[r + 1].more[j] || |rows[r + 1].more| == j + 1)
  }

  lemma {:induction false} RowsConnected(e: EtlError, more: seq<bool>, r: nat, j: nat)
    requires |more| <= j
    ensures Connected(Rows(e, more), r, j)
    decreases e
  {
    if 0 < r < |Rows(e, more)| {
      ChildRowsConnected(e.errors, more, r - 1, j);
      assert Rows(e, more)[1..] == ChildRows(e.errors, more);
    }
  }

  lemma {:induction false} ChildRowsConnected(errors: seq<EtlError>, more: seq<bool>, r: nat, j: nat)
    requires |more| <= j
    ensures Connected(ChildRows(errors, more), r, j)
    decreases errors
  {
    if errors != [] {
      var here := more + [|errors| > 1];
      var first, rest := Rows(errors[0], here), ChildRows(errors[1..], more);
      if r >= |first| {
        ChildRowsConnected(errors[1..], more, r - |first|, j);
      } else {
        RowsExtend(errors[0], here, r);
        if j > |more| {
          RowsConnected(errors[0], here, r, j);
        } else if |errors| > 1 {
          assert rest[0] == Rows(errors[1], more + [|errors[1..]| > 1])[0];
          if r + 1 < |first| { RowsExtend(errors[0], here, r + 1); }
          assert here[..j] == more && rest[0].more[..j] == more;
        }
      }
    }
  }

  /** What stands at the column of level `j`: a bar or a gap above the last level, a tee or a corner at it. */
  function ColumnChar(more: seq<bool>, j: nat): char
    requires j < |more|
  {
    if j + 1 == |more| then if more[j] then TEE[0] else CORNER[0]
    else if more[j] then BAR[0] else GAP[0]
  }

  lemma {:induction false} BarsColumn(more: seq<bool>, j: nat)
    requires j < |more|
    ensures Bars(more)[3 * j] == if more[j] then BAR[0] else GAP[0]
    decreases |more|
  {
    if j + 1 < |more| { BarsColumn(more[..|more| - 1], j); }
  }

  lemma RowColumn(row: Row, j: nat)
    requires j < |row.more|
    ensures 3 * j < |RowText(row)| && RowText(row)[3 * j] == ColumnChar(row.more, j)
  {
    var k := |row.more| - 1;
    assert RowText(row)[3 * j] == Margin(row.more)[3 * j];
    if j < k { BarsColumn(row.more[..k], j); }
  }

  /**
    No vertical line of the drawing ends in the air: under every bar and every tee stands
    another bar, tee or corner, in the same column of the next line.
  */
  lemma NothingDangles(e: EtlError, r: nat, j: nat)
    requires r < |Rows(e, [])| && j < |Rows(e, [])[r].more|
    requires Lines(e, [])[r][3 * j] == BAR[0] || Lines(e, [])[r][3 * j] == TEE[0]
    ensures r + 1 < |Lines(e, [])| && 3 * j < |Lines(e, [])[r + 1]|
    ensures Lines(e, [])[r + 1][3 * j] in {BAR[0], TEE[0], CORNER[0]}
  {
    RowColumn(Rows(e, [])[r], j);
    RowsConnected(e, [], r, j);
    RowColumn(Rows(e, [])[r + 1], j);
  }

  // Reading the text back.

  datatype Shape = Leaf(text: string) | Node(children: seq<Shape>)

  function ShapeOf(e: EtlError): Shape
    decreases e
  {
    if e.Single? then Leaf(Head(e)) else Node(ShapesOf(e.errors))
  }

  function ShapesOf(errors: seq<EtlError>): (r: seq<Shape>)
    ensures |r| == |errors|
    decreases errors
  {
    if errors == [] then [] else [ShapeOf(errors[0])] + ShapesOf(errors[1..])
  }

  function LeadingDigits(s: string): (d: string)
    ensures AllDigits(d)
  {
    if s == "" || !IsDigit(s[0]) then "" else [s[0]] + LeadingDigits(s[1..])
  }

  /** Reads one tree whose root is at `depth`; an aggregate says how many errors it holds. */
  function ParseTree(lines: seq<string>, depth: nat): (r: Option<(Shape, seq<string>)>)
    ensures r.Some? ==> |r.value.1| < |lines|
    decreases |lines|, 0
  {
    if lines == [] || |lines[0]| <= 3 * depth then None
    else
      var head := lines[0][3 * depth..];
      if head[0] == '[' then Some((Leaf(head), lines[1..]))
      else if !IsDigit(head[0]) then None
      else
        match ParseTrees(lines[1..], depth + 1, ToNat(LeadingDigits(head)))
        case None => None
        case Some(found) => Some((Node(found.0), found.1))
  }

  function ParseTrees(lines: seq<string>, depth: nat, n: nat): (r: Option<(seq<Shape>, seq<string>)>)
    ensures r.Some? ==> |r.value.1| <= |lines|
    decreases |lines|, 1
  {
    if n == 0 then Some(([], lines))
    else
      match ParseTree(lines, depth)
      case None => None
      case Some(first) =>
        match ParseTrees(first.1, depth, n - 1)
        case None => None
        case Some(rest) => Some(([first.0] + rest.0, rest.1))
  }

  lemma {:induction false} LeadingDigitsOf(d: string, rest: string)
    requires AllDigits(d) && (rest == "" || !IsDigit(rest[0]))
    ensures LeadingDigits(d + rest) == d
    decreases |d|
  {
    if d == "" {
      assert d + rest == rest;
    } else {
      assert (d + rest)[1..] == d[1..] + rest;
      LeadingDigitsOf(d[1..], rest);
    }
  }

  lemma CountReadable(n: nat)
    ensures CountText(n) != "" && IsDigit(CountText(n)[0]) && ToNat(LeadingDigits(CountText(n))) == n
  {
    var rest := if n == 1 then " error occurred" else " errors occurred";
    assert rest[0] == ' ';
    LeadingDigitsOf(OfNat(n), rest);
    ToNatOfNat(n);
  }

  lemma HeadReadable(e: EtlError)
    ensures Head(e) != ""
    ensures e.Single? ==> Head(e)[0] == '['
    ensures e.Many? ==> IsDigit(Head(e)[0]) && ToNat(LeadingDigits(Head(e))) == |e.errors|
  {
    if e.Many? { CountReadable(|e.errors|); }
  }

  lemma ParseLeaf(lines: seq<string>, depth: nat, margin: string, head: string)
    requires lines != [] && lines[0] == margin + head && |margin| == 3 * depth && head != "" && head[0] == '['
    ensures ParseTree(lines, depth) == Some((Leaf(head), lines[1..]))
  {
  }

  lemma ParseNode(lines: seq<string>, depth: nat, margin: string, head: string, found: (seq<Shape>, seq<string>))
    requires lines != [] && lines[0] == margin + head && |margin| == 3 * depth && head != "" && IsDigit(head[0])
    requires ParseTrees(lines[1..], depth + 1, ToNat(LeadingDigits(head))) == Some(found)
    ensures ParseTree(lines, depth) == Some((Node(found.0), found.1))
  {
  }

  lemma {:induction false} TreeReadable(e: EtlError, more: seq<bool>, rest: seq<string>)
    ensures ParseTree(Lines(e, more) + rest, |more|) == Some((ShapeOf(e), rest))
    decreases e
  {
    if e.Single? {
      LeafReadable(e, more, rest);
    } else {
      TreesReadable(e.errors, more, rest);
      NodeReadable(e, more, rest);
    }
  }

  lemma LeafReadable(e: EtlError, more: seq<bool>, rest: seq<string>)
    requires e.Single?
    ensures ParseTree(Lines(e, more) + rest, |more|) == Some((ShapeOf(e), rest))
  {
    LinesBefore(e, more, rest);
    ParseHeaded(Lines(e, more) + rest, |more|, Margin(more), e, rest);
  }

  lemma NodeReadable(e: EtlError, more: seq<bool>, rest: seq<string>)
    requires e.Many? && ParseTrees(ChildLines(e.errors, more) + rest, |more| + 1, |e.errors|) == Some((ShapesOf(e.errors), rest))
    ensures ParseTree(Lines(e, more) + rest, |more|) == Some((ShapeOf(e), rest))
  {
    LinesBefore(e, more, rest);
    ParseHeaded(Lines(e, more) + rest, |more|, Margin(more), e, rest);
  }

  /** A tree is read by reading its first line and then its children. */
  lemma ParseHeaded(lines: seq<string>, depth: nat, margin: string, e: EtlError, rest: seq<string>)
    requires lines != [] && lines[0] == margin + Head(e) && |margin| == 3 * depth
    requires e.Single? ==> lines[1..] == rest
    requires e.Many? ==> ParseTrees(lines[1..], depth + 1, |e.errors|) == Some((ShapesOf(e.errors), rest))
    ensures ParseTree(lines, depth) == Some((ShapeOf(e), rest))
  {
    HeadReadable(e);
    if e.Single? {
      ParseLeaf(lines, depth, margin, Head(e));
    } else {
      ParseNode(lines, depth, margin, Head(e), (ShapesOf(e.errors), rest));
    }
  }

  lemma ParseFirst(lines: seq<string>, depth: nat, n: nat, first: (Shape, seq<string>), rest: (seq<Shape>, seq<string>))
    requires ParseTree(lines, depth) == Some(first) && ParseTrees(first.1, depth, n) == Some(rest)
    ensures ParseTrees(lines, depth, n + 1) == Some(([first.0] + rest.0, rest.1))
  {
  }

  lemma {:induction false} TreesReadable(errors: seq<EtlError>, more: seq<bool>, rest: seq<string>)
    ensures ParseTrees(ChildLines(errors, more) + rest, |more| + 1, |errors|) == Some((ShapesOf(errors), rest))
    decreases errors
  {
    ChildLinesBefore(errors, more, rest);
    if errors != [] {
      var tail := ChildLines(errors[1..], more) + rest;
      TreeReadable(errors[0], more + [|errors| > 1], tail);
      TreesReadable(errors[1..], more, rest);
      ParseFirst(ChildLines(errors, more) + rest, |more| + 1, |errors| - 1, (ShapeOf(errors[0]), tail), (ShapesOf(errors[1..]), rest));
    }
  }

  function SplitLines(s: string): (r: seq<string>)
    ensures r != []
    decreases |s|
  {
    var n := LineEnd(s);
    if n == |s| then [s] else [s[..n]] + SplitLines(s[n + 1..])
  }

  lemma LineEndOf(a: string, b: string)
    requires '\n' !in a && (b == "" || b[0] == '\n')
    ensures LineEnd(a + b) == |a|
  {
    var n := LineEnd(a + b);
    assert forall i :: 0 <= i < |a| ==> (a + b)[i] == a[i] && a[i] in a;
    assert b != "" ==> (a + b)[|a|] == '\n';
  }

  /** No line contains a newline. */
  ghost predicate Plain(lines: seq<string>) {
    forall i :: 0 <= i < |lines| ==> '\n' !in lines[i]
  }

  lemma {:induction false} SplitJoin(lines: seq<string>)
    requires lines != [] && Plain(lines)
    ensures SplitLines(Join(lines)) == lines
    decreases |lines|
  {
    if |lines| == 1 {
      assert Join(lines) == lines[0];
      SplitLast(lines[0]);
      assert lines == [lines[0]];
    } else {
      SplitJoin(lines[1..]);
      BelowIsJoin(lines[1..]);
      SplitFirst(lines[0], Join(lines[1..]));
      assert Join(lines) == lines[0] + ("\n" + Join(lines[1..]));
    }
  }

  lemma SplitLast(a: string)
    requires '\n' !in a
    ensures SplitLines(a) == [a]
  {
  }

  lemma SplitFirst(a: string, b: string)
    requires '\n' !in a
    ensures SplitLines(a + ("\n" + b)) == [a] + SplitLines(b)
  {
    var s := a + ("\n" + b);
    LineEndOf(a, "\n" + b);
    assert s[..|a|] == a && s[|a| + 1..] == b;
  }

  function ReadDisplay(s: string): Option<Shape> {
    match ParseTree(SplitLines(s), 0)
    case Some(found) => if found.1 == [] then Some(found.0) else None
    case None => None
  }

  /** Every description and kind name stays on one line. */
  predicate SingleLine(e: EtlError)
    decreases e
  {
    match e
    case Single(kind, description, _) => '\n' !in kind.name && '\n' !in description
    case Many(errors) => forall i :: 0 <= i < |errors| ==> SingleLine(errors[i])
  }

  lemma {:induction false} MarginPlain(more: seq<bool>)
    ensures '\n' !in Bars(more) && '\n' !in Margin(more)
    decreases |more|
  {
    assert '\n' !in BAR && '\n' !in GAP && '\n' !in TEE && '\n' !in CORNER;
    if more != [] { MarginPlain(more[..|more| - 1]); }
  }

  lemma HeadPlain(e: EtlError)
    ensures '\n' in Head(e) <==> e.Single? && ('\n' in e.kind.name || '\n' in e.description)
  {
  }

  lemma PlainConcat(a: seq<string>, b: seq<string>)
    ensures Plain(a + b) <==> Plain(a) && Plain(b)
  {
    if Plain(a + b) {
      forall i | 0 <= i < |a| ensures '\n' !in a[i] { assert a[i] == (a + b)[i]; }
      forall i | 0 <= i < |b| ensures '\n' !in b[i] { assert b[i] == (a + b)[|a| + i]; }
    }
  }

  lemma PlainFirst(lines: seq<string>, margin: string, head: string)
    requires lines != [] && lines[0] == margin + head && '\n' !in margin
    ensures Plain(lines) <==> '\n' !in head && Plain(lines[1..])
  {
  }

  lemma {:induction false} LinesPlain(e: EtlError, more: seq<bool>)
    ensures Plain(Lines(e, more)) <==> SingleLine(e)
    decreases e
  {
    MarginPlain(more);
    HeadPlain(e);
    LinesTail(e, more);
    PlainFirst(Lines(e, more), Margin(more), Head(e));
    if e.Many? { ChildLinesPlain(e.errors, more); }
  }

  lemma {:induction false} ChildLinesPlain(errors: seq<EtlError>, more: seq<bool>)
    ensures Plain(ChildLines(errors, more)) <==> forall i :: 0 <= i < |errors| ==> SingleLine(errors[i])
    decreases errors
  {
    if errors != [] {
      LinesPlain(errors[0], more + [|errors| > 1]);
      ChildLinesPlain(errors[1..], more);
      ChildLinesSplit(errors, more);
      PlainConcat(Lines(errors[0], more + [|errors| > 1]), ChildLines(errors[1..], more));
      assert forall i :: 0 < i < |errors| ==> errors[i] == errors[1..][i - 1];
    }
  }

  /** No leaf of the shape holds a newline. */
  predicate PlainShape(shape: Shape)
    decreases shape
  {
    match shape
    case Leaf(text) => '\n' !in text
    case Node(children) => forall i :: 0 <= i < |children| ==> PlainShape(children[i])
  }

  lemma {:induction false} PlainShapeIff(e: EtlError)
    ensures PlainShape(ShapeOf(e)) <==> SingleLine(e)
    decreases e
  {
    if e.Single? {
      HeadPlain(e);
    } else {
      forall i | 0 <= i < |e.errors| ensures PlainShape(ShapesOf(e.errors)[i]) <==> SingleLine(e.errors[i]) {
        ShapeAt(e.errors, i);
        PlainShapeIff(e.errors[i]);
      }
    }
  }

  lemma {:induction false} ShapeAt(errors: seq<EtlError>, i: nat)
    requires i < |errors|
    ensures ShapesOf(errors)[i] == ShapeOf(errors[i])
    decreases |errors|
  {
    if i > 0 { ShapeAt(errors[1..], i - 1); }
  }

  lemma {:induction false} SplitIsPlain(s: string)
    ensures Plain(SplitLines(s))
    decreases |s|
  {
    var n := LineEnd(s);
    assert '\n' !in s[..n];
    if n < |s| {
      SplitIsPlain(s[n + 1..]);
    } else {
      assert s == s[..n];
    }
  }

  lemma {:induction false} ParsedIsPlain(lines: seq<string>, depth: nat)
    requires Plain(lines)
    ensures var r := ParseTree(lines, depth);
      r.Some? ==> PlainShape(r.value.0) && Plain(r.value.1)
    decreases |lines|, 0
  {
    if lines != [] && |lines[0]| > 3 * depth {
      var head := lines[0][3 * depth..];
      assert forall c :: c in head ==> c in lines[0];
      if head[0] != '[' && IsDigit(head[0]) {
        ParsedArePlain(lines[1..], depth + 1, ToNat(LeadingDigits(head)));
      }
    }
  }

  lemma {:induction false} ParsedArePlain(lines: seq<string>, depth: nat, n: nat)
    requires Plain(lines)
    ensures var r := ParseTrees(lines, depth, n);
      r.Some? ==> (forall i :: 0 <= i < |r.value.0| ==> PlainShape(r.value.0[i])) && Plain(r.value.1)
    decreases |lines|, 1
  {
    if n > 0 {
      ParsedIsPlain(lines, depth);
      var first := ParseTree(lines, depth);
      if first.Some? { ParsedArePlain(first.value.1, depth, n - 1); }
    }
  }

  /**
    The text gives back the tree's shape and every leaf's own text exactly if no
    description holds a newline, whatever the details contain.
  */
  lemma DisplayReadable(e: EtlError)
    ensures ReadDisplay(Display(e)) == Some(ShapeOf(e)) <==> SingleLine(e)
  {
    LinesPlain(e, []);
    if SingleLine(e) {
      SplitJoin(Lines(e, []));
      TreeReadable(e, [], []);
      assert Lines(e, []) + [] == Lines(e, []);
    } else {
      SplitIsPlain(Display(e));
      ParsedIsPlain(SplitLines(Display(e)), 0);
      PlainShapeIff(e);
    }
  }

  lemma LeafLine(e: EtlError, more: bool)
    requires e.Single?
    ensures Lines(e, [more]) == [(if more then TEE else CORNER) + Head(e)]
  {
    LinesTail(e, [more]);
    assert Bars([]) == "" && Margin([more]) == if more then TEE else CORNER;
  }

  /** The first line of an aggregate. */
  lemma CountPrinted(n: nat)
    ensures CountText(n) == if n == 1 then "1 error occurred" else OfNat(n) + " errors occurred"
  {
    assert OfNat(1) == [DigitChar(1)] && DigitChar(1) == '1';
  }

  lemma DisplayMany(errors: seq<EtlError>)
    ensures Display(Many(errors)) == CountText(|errors|) + Below(ChildLines(errors, []))
  {
    LinesTail(Many(errors), []);
    assert Margin([]) + CountText(|errors|) == CountText(|errors|);
  }

  lemma TwoLeafLines(a: EtlError, b: EtlError)
    requires a.Single? && b.Single?
    ensures ChildLines([a, b], []) == [TEE + Head(a)] + [CORNER + Head(b)]
  {
    assert [a, b][1..] == [b] && [b][1..] == [];
    assert [] + [true] == [true] && [] + [false] == [false];
    ChildLinesSplit([a, b], []);
    ChildLinesSplit([b], []);
    LeafLine(a, true);
    LeafLine(b, false);
  }

  lemma BelowTwo(x: string, y: string)
    ensures Below([x] + [y]) == "\n" + x + ("\n" + y + "")
  {
    assert ([x] + [y])[1..] == [y] && [y][1..] == [];
    assert Below([y]) == "\n" + y + Below([]);
  }

  /** Two leaves, as they are printed. */
  lemma DisplayTwo(a: EtlError, b: EtlError)
    requires a.Single? && b.Single?
    ensures Display(Many([a, b])) == CountText(2) + ("\n" + (TEE + Head(a)) + ("\n" + (CORNER + Head(b)) + ""))
  {
    DisplayMany([a, b]);
    TwoLeafLines(a, b);
    BelowTwo(TEE + Head(a), CORNER + Head(b));
  }

  /** With a newline in a description, different trees print the same text. */
  lemma NewlineAmbiguous(kind: ErrorKind, x: string, y: string, z: string)
    ensures var leaf := (t: string) => Single(kind, t, None);
      var a := Many([leaf(x + "\n" + (CORNER + Head(leaf(y)))), leaf(z)]);
      var b := Many([leaf(x), leaf(y + "\n" + (CORNER + Head(leaf(z))))]);
      Display(a) == Display(b) && ShapeOf(a) != ShapeOf(b)
  {
    var k := "[" + kind.name + "] ";
    var lx, ly, lz := Single(kind, x, None), Single(kind, y, None), Single(kind, z, None);
    var a1 := Single(kind, x + "\n" + (CORNER + Head(ly)), None);
    var b2 := Single(kind, y + "\n" + (CORNER + Head(lz)), None);
    DisplayTwo(a1, lz);
    DisplayTwo(lx, b2);
    HeadPlainText(kind, x);
    HeadPlainText(kind, y);
    HeadPlainText(kind, z);
    HeadPlainText(kind, a1.description);
    HeadPlainText(kind, b2.description);
    Regrouped(TEE, CORNER, k, x, y, z);
    assert ShapesOf([a1, lz])[0] == Leaf(Head(a1)) && ShapesOf([lx, b2])[0] == Leaf(Head(lx));
    assert |Head(a1)| != |Head(lx)|;
  }

  lemma HeadPlainText(kind: ErrorKind, t: string)
    ensures Head(Single(kind, t, None)) == ("[" + kind.name + "] ") + t
  {
  }

  lemma Regrouped(tee: string, corner: string, k: string, x: string, y: string, z: string)
    ensures "\n" + (tee + (k + (x + "\n" + (corner + (k + y))))) + ("\n" + (corner + (k + z)) + "") ==
            "\n" + (tee + (k + x)) + ("\n" + (corner + (k + (y + "\n" + (corner + (k + z))))) + "")
  {
  }

  // The text of a leaf.

  /** Lines, each ended by a newline or a return and a newline, and what follows the last of them. */
  function DetailText(lines: seq<string>, ends: seq<bool>, last: string): string
    requires |ends| == |lines|
  {
    if lines == [] then last
    else lines[0] + (if ends[0] then "\r\n" else "\n") + DetailText(lines[1..], ends[1..], last)
  }

  /** A line that a bare newline ends does not itself end in a return, and no line holds a newline. */
  predicate AreLines(lines: seq<string>, ends: seq<bool>, last: string) {
    && |ends| == |lines| && '\n' !in last
    && (forall i :: 0 <= i < |lines| ==> '\n' !in lines[i])
    && (forall i :: 0 <= i < |lines| && !ends[i] && lines[i] != "" ==> lines[i][|lines[i]| - 1] != '\r')
  }

  function Spaced(lines: seq<string>): string {
    if lines == [] then "" else if |lines| == 1 then lines[0] else lines[0] + " " + Spaced(lines[1..])
  }

  /** The lines of a detail; a newline at its end starts no further line. */
  function NonEmptyLast(lines: seq<string>, last: string): seq<string> {
    if last == "" then lines else lines + [last]
  }

  lemma OneLineStep(line: string, crlf: bool, rest: string)
    requires '\n' !in line && (!crlf && line != "" ==> line[|line| - 1] != '\r')
    ensures OneLine(line + (if crlf then "\r\n" else "\n") + rest) == if rest == "" then line else line + " " + OneLine(rest)
  {
    var head := if crlf then line + "\r" else line;
    var s := line + (if crlf then "\r\n" else "\n") + rest;
    assert s == head + ("\n" + rest);
    LineEndOf(head, "\n" + rest);
    assert s[..|head|] == head && s[|head| + 1..] == rest;
    if crlf { assert (line + "\r")[..|line|] == line; }
  }

  lemma {:induction false} OneLineJoins(lines: seq<string>, ends: seq<bool>, last: string)
    requires AreLines(lines, ends, last)
    ensures OneLine(DetailText(lines, ends, last)) == Spaced(NonEmptyLast(lines, last))
    decreases |lines|
  {
    if lines == [] {
      assert last + "" == last;
      LineEndOf(last, "");
    } else {
      var rest := DetailText(lines[1..], ends[1..], last);
      OneLineJoins(lines[1..], ends[1..], last);
      OneLineStep(lines[0], ends[0], rest);
      SpacedStep(lines, last);
      DetailEmpty(lines[1..], ends[1..], last);
    }
  }

  lemma SpacedStep(lines: seq<string>, last: string)
    requires lines != []
    ensures var rest := NonEmptyLast(lines[1..], last);
      Spaced(NonEmptyLast(lines, last)) == if rest == [] then lines[0] else lines[0] + " " + Spaced(rest)
  {
    var all := NonEmptyLast(lines, last);
    assert all[0] == lines[0] && all[1..] == NonEmptyLast(lines[1..], last);
  }

  lemma DetailEmpty(lines: seq<string>, ends: seq<bool>, last: string)
    requires |ends| == |lines|
    ensures DetailText(lines, ends, last) == "" <==> NonEmptyLast(lines, last) == []
  {
  }

  /** Every detail consists of lines in one of these forms. */
  lemma {:induction false} EveryDetail(d: string) returns (lines: seq<string>, ends: seq<bool>, last: string)
    ensures AreLines(lines, ends, last) && DetailText(lines, ends, last) == d
    decreases |d|
  {
    var n := LineEnd(d);
    if n == |d| {
      lines, ends, last := [], [], d;
    } else {
      var more, moreEnds, end := EveryDetail(d[n + 1..]);
      var crlf := n > 0 && d[n - 1] == '\r';
      var line := if crlf then d[..n - 1] else d[..n];
      lines, ends, last := [line] + more, [crlf] + moreEnds, end;
      assert lines[1..] == more && ends[1..] == moreEnds;
      assert d == line + (if crlf then "\r\n" else "\n") + d[n + 1..];
    }
  }

  /**
    What is printed for a leaf: kind, description and, unless it is blank, the detail with
    its lines joined by single spaces, whatever ends them.
  */
  lemma LeafPrinted(kind: ErrorKind, description: string, lines: seq<string>, ends: seq<bool>, last: string)
    requires AreLines(lines, ends, last)
    ensures var d := DetailText(lines, ends, last);
      Head(Single(kind, description, Some(d))) ==
      "[" + kind.name + "] " + description + (if Blank(d) then "" else ": " + Spaced(NonEmptyLast(lines, last)))
    ensures Head(Single(kind, description, None)) == "[" + kind.name + "] " + description
  {
    OneLineJoins(lines, ends, last);
    assert ("[" + kind.name + "] " + description) + "" == "[" + kind.name + "] " + description;
  }

  /** A single error is displayed as its leaf text. */
  lemma DisplaySingle(e: EtlError)
    requires e.Single?
    ensures Display(e) == Head(e)
  {
    LinesTail(e, []);
    assert Margin([]) + Head(e) == Head(e) && Head(e) + "" == Head(e);
  }

  /** For a detail on one line: it follows the description after a colon, unless it is blank. */
  lemma DisplayOneLineDetail(kind: ErrorKind, description: string, d: string)
    requires '\n' !in d
    ensures Display(Single(kind, description, Some(d))) == "[" + kind.name + "] " + description + (if Blank(d) then "" else ": " + d)
  {
    DisplaySingle(Single(kind, description, Some(d)));
    LeafPrinted(kind, description, [], [], d);
    assert DetailText([], [], d) == d;
    if d != "" { assert NonEmptyLast([], d) == [d]; }
  }

  // One line per error.

  function CountNewlines(s: string): nat {
    if s == "" then 0 else (if s[0] == '\n' then 1 else 0) + CountNewlines(s[1..])
  }

  lemma {:induction false} NewlinesConcat(a: string, b: string)
    ensures CountNewlines(a + b) == CountNewlines(a) + CountNewlines(b)
    decreases |a|
  {
    if a == "" {
      assert a + b == b;
    } else {
      assert (a + b)[1..] == a[1..] + b;
      NewlinesConcat(a[1..], b);
    }
  }

  lemma {:induction false} NoNewlines(s: string)
    ensures CountNewlines(s) == 0 <==> '\n' !in s
    decreases |s|
  {
    if s != "" {
      NoNewlines(s[1..]);
      assert s == [s[0]] + s[1..];
    }
  }

  lemma {:induction false} LinesAreNewlines(s: string)
    ensures |SplitLines(s)| == CountNewlines(s) + 1
    decreases |s|
  {
    var n := LineEnd(s);
    assert '\n' !in s[..n];
    NoNewlines(s[..n]);
    assert s == s[..n] + s[n..];
    NewlinesConcat(s[..n], s[n..]);
    if n < |s| {
      assert s[n..][1..] == s[n + 1..];
      LinesAreNewlines(s[n + 1..]);
    }
  }

  lemma {:induction false} NewlinesBelow(lines: seq<string>)
    ensures CountNewlines(Below(lines)) >= |lines|
    ensures CountNewlines(Below(lines)) == |lines| <==> Plain(lines)
    decreases |lines|
  {
    if lines != [] {
      NewlinesBelow(lines[1..]);
      NewlinesConcat("\n" + lines[0], Below(lines[1..]));
      assert ("\n" + lines[0])[1..] == lines[0];
      NoNewlines(lines[0]);
      assert lines == [lines[0]] + lines[1..];
      PlainConcat([lines[0]], lines[1..]);
      assert Plain([lines[0]]) <==> '\n' !in [lines[0]][0];
    }
  }

  function Nodes(e: EtlError): nat
    decreases e
  {
    1 + if e.Many? then NodesAll(e.errors) else 0
  }

  function NodesAll(errors: seq<EtlError>): nat
    decreases errors
  {
    if errors == [] then 0 else Nodes(errors[0]) + NodesAll(errors[1..])
  }

  lemma {:induction false} RowPerNode(e: EtlError, more: seq<bool>)
    ensures |Rows(e, more)| == Nodes(e)
    decreases e
  {
    if e.Many? { RowsPerNode(e.errors, more); }
  }

  lemma {:induction false} RowsPerNode(errors: seq<EtlError>, more: seq<bool>)
    ensures |ChildRows(errors, more)| == NodesAll(errors)
    decreases errors
  {
    if errors != [] {
      RowPerNode(errors[0], more + [|errors| > 1]);
      RowsPerNode(errors[1..], more);
    }
  }

  /** The text has one line for each error and aggregate exactly if no description holds a newline. */
  lemma OneLinePerNode(e: EtlError)
    ensures |SplitLines(Display(e))| == Nodes(e) <==> SingleLine(e)
  {
    var lines := Lines(e, []);
    LinesAreNewlines(Display(e));
    NewlinesConcat("\n", Display(e));
    BelowIsJoin(lines);
    assert "\n"[1..] == "" && CountNewlines("\n") == 1;
    NewlinesBelow(lines);
    RowPerNode(e, []);
    LinesPlain(e, []);
  }
}
