/**
  Thousands separators (crates/etl-benchmarks/src/common.rs) and image tags
  (crates/etl-api/src/utils.rs).
*/
module Formatting {
  import opened Wrappers
  import opened Decimal

  /** Groups of three digits from the right, separated by commas. */
  function Grouped(digits: string): string
    decreases |digits|
  {
    if |digits| <= 3 then digits else Grouped(digits[..|digits| - 3]) + "," + digits[|digits| - 3..]
  }

  /** The first `i` digits with the commas before each of them. */
  function Upto(digits: string, i: nat): string
    requires i <= |digits|
  {
    if i == 0 then ""
    else Upto(digits, i - 1) + (if i > 1 && (|digits| - (i - 1)) % 3 == 0 then "," else "") + [digits[i - 1]]
  }

  lemma {:induction false} UptoShorter(digits: string, i: nat)
    requires |digits| >= 3 && i <= |digits| - 3
    ensures Upto(digits, i) == Upto(digits[..|digits| - 3], i)
    decreases i
  {
    if i > 0 { UptoShorter(digits, i - 1); }
  }

  lemma {:induction false} UptoIsGrouped(digits: string)
    ensures Upto(digits, |digits|) == Grouped(digits)
    decreases |digits|
  {
    var n := |digits|;
    if n > 3 {
      UptoIsGrouped(digits[..n - 3]);
      UptoShorter(digits, n - 3);
      assert Upto(digits, n - 2) == Grouped(digits[..n - 3]) + "," + [digits[n - 3]];
      assert Upto(digits, n - 1) == Upto(digits, n - 2) + "" + [digits[n - 2]];
      assert Upto(digits, n) == Upto(digits, n - 1) + "" + [digits[n - 1]];
      assert digits[n - 3..] == [digits[n - 3], digits[n - 2], digits[n - 1]];
    } else if n == 3 {
      assert Upto(digits, 1) == [digits[0]] && Upto(digits, 2) == [digits[0], digits[1]];
    } else if n == 2 {
      assert Upto(digits, 1) == [digits[0]];
    }
  }

  /** `format_integer`. */
  method FormatInteger(value: nat) returns (formatted: string)
    ensures formatted == Grouped(OfNat(value))
  {
    var digits := OfNat(value);
    formatted := "";
    var firstGroup := |digits| % 3;
    var i := 0;
    while i < |digits|
      invariant 0 <= i <= |digits| && formatted == Upto(digits, i)
    {
      if i > 0 && (i == firstGroup || (i > firstGroup && (i - firstGroup) % 3 == 0)) {
        formatted := formatted + ",";
      } else {
        assert formatted + "" == formatted;
      }
      formatted := formatted + [digits[i]];
      i := i + 1;
    }
    UptoIsGrouped(digits);
  }

  function WithoutCommas(s: string): string {
    if s == "" then "" else WithoutCommas(s[..|s| - 1]) + if s[|s| - 1] == ',' then "" else [s[|s| - 1]]
  }

  lemma {:induction false} WithoutCommasConcat(a: string, b: string)
    ensures WithoutCommas(a + b) == WithoutCommas(a) + WithoutCommas(b)
    decreases |b|
  {
    if b == "" {
      assert a + b == a;
    } else {
      assert (a + b)[..|a + b| - 1] == a + b[..|b| - 1];
      WithoutCommasConcat(a, b[..|b| - 1]);
    }
  }

  lemma {:induction false} DigitsKept(s: string)
    requires AllDigits(s)
    ensures WithoutCommas(s) == s
    decreases |s|
  {
    if s != "" { DigitsKept(s[..|s| - 1]); }
  }

  lemma CommaDropped()
    ensures WithoutCommas(",") == ""
  {
  }

  /** Deleting the commas gives the digits back. */
  lemma {:induction false} GroupedRoundTrip(digits: string)
    requires AllDigits(digits)
    ensures WithoutCommas(Grouped(digits)) == digits
    decreases |digits|
  {
    var n := |digits|;
    if n > 3 {
      var head, tail := digits[..n - 3], digits[n - 3..];
      GroupedRoundTrip(head);
      WithoutCommasConcat(Grouped(head) + ",", tail);
      WithoutCommasConcat(Grouped(head), ",");
      CommaDropped();
      DigitsKept(tail);
      assert digits == head + tail;
    } else {
      DigitsKept(digits);
    }
  }

  lemma CommaShift(g: string, tail: string, i: nat)
    requires |tail| == 3 && AllDigits(tail) && i < |g + "," + tail|
    requires forall k :: 0 <= k < |g| ==> (g[k] == ',' <==> (|g| - k) % 4 == 0)
    ensures (g + "," + tail)[i] == ',' <==> (|g + "," + tail| - i) % 4 == 0
  {
  }

  /** There are `(digits - 1) / 3` commas, one before every third digit from the right, so the first group holds one to three. */
  lemma {:induction false} CommaPositions(digits: string)
    requires AllDigits(digits) && digits != ""
    ensures |Grouped(digits)| == |digits| + (|digits| - 1) / 3
    ensures forall i :: 0 <= i < |Grouped(digits)| ==> (Grouped(digits)[i] == ',' <==> (|Grouped(digits)| - i) % 4 == 0)
    decreases |digits|
  {
    var n := |digits|;
    if n > 3 {
      var head, tail := digits[..n - 3], digits[n - 3..];
      CommaPositions(head);
      forall i | 0 <= i < |Grouped(digits)| ensures Grouped(digits)[i] == ',' <==> (|Grouped(digits)| - i) % 4 == 0 {
        CommaShift(Grouped(head), tail, i);
      }
    }
  }

  /** So the formatted text determines the number. */
  lemma FormattedInjective(m: nat, n: nat)
    requires Grouped(OfNat(m)) == Grouped(OfNat(n))
    ensures m == n
  {
    GroupedRoundTrip(OfNat(m));
    GroupedRoundTrip(OfNat(n));
    OfNatInjective(m, n);
  }

  // Image tags.

  /** Index of the first `c`, or the length. */
  function Find(s: string, c: char): (n: nat)
    ensures n <= |s| && (forall i :: 0 <= i < n ==> s[i] != c) && (n < |s| ==> s[n] == c)
  {
    if s == "" || s[0] == c then 0 else 1 + Find(s[1..], c)
  }

  /** What follows the last slash. */
  function LastSegment(s: string): (r: string)
    ensures '/' !in r
  {
    if Find(s, '/') == |s| then s else LastSegment(s[Find(s, '/') + 1..])
  }

  function SegmentTag(segment: string): string {
    var at := Find(segment, '@');
    var colon := Find(segment[..at], ':');
    if colon < at then
      var tag := segment[colon + 1..at];
      if tag == "" then UNAVAILABLE else tag
    else if at < |segment| then UNAVAILABLE
    else LATEST
  }

  const UNAVAILABLE := "unavailable"
  const LATEST := "latest"

  function ParseImageTag(image: string): string {
    SegmentTag(LastSegment(image))
  }

  /** A reference: everything up to the last slash, the repository, an optional tag, an optional digest. */
  datatype Image = Image(path: string, repository: string, tag: Option<string>, digest: Option<string>)

  function Marked(mark: string, part: Option<string>): string {
    if part.Some? then mark + part.value else ""
  }

  function Segment(i: Image): string {
    i.repository + Marked(":", i.tag) + Marked("@", i.digest)
  }

  function Print(i: Image): string {
    i.path + Segment(i)
  }

  /** The separators stay out of the parts they delimit. */
  predicate WellFormed(i: Image) {
    && (i.path == "" || i.path[|i.path| - 1] == '/')
    && '/' !in i.repository && ':' !in i.repository && '@' !in i.repository
    && (i.tag.Some? ==> '/' !in i.tag.value && '@' !in i.tag.value)
    && (i.digest.Some? ==> '/' !in i.digest.value)
  }

  lemma {:induction false} LastSegmentOf(path: string, segment: string)
    requires (path == "" || path[|path| - 1] == '/') && '/' !in segment
    ensures LastSegment(path + segment) == segment
    decreases |path|
  {
    var s := path + segment;
    var n := Find(s, '/');
    if path == "" {
      assert s == segment;
    } else {
      assert s[|path| - 1] == '/';
      assert s[n + 1..] == path[n + 1..] + segment;
      LastSegmentOf(path[n + 1..], segment);
    }
  }

  lemma FindAfter(a: string, c: char, b: string)
    requires c !in a && (b == "" || b[0] == c)
    ensures Find(a + b, c) == |a|
  {
    var n := Find(a + b, c);
    assert forall i :: 0 <= i < |a| ==> (a + b)[i] == a[i] && a[i] in a;
    assert b != "" ==> (a + b)[|a|] == c;
  }

  lemma TagFound(repository: string, tag: string, rest: string)
    requires ':' !in repository && '@' !in repository && '@' !in tag && (rest == "" || rest[0] == '@')
    ensures SegmentTag(repository + ":" + tag + rest) == if tag == "" then UNAVAILABLE else tag
  {
    var tagged := repository + ":" + tag;
    FindAfter(tagged, '@', rest);
    assert (tagged + rest)[..|tagged|] == tagged;
    assert tagged == repository + (":" + tag);
    FindAfter(repository, ':', ":" + tag);
    assert (tagged + rest)[|repository| + 1..|tagged|] == tag;
  }

  lemma NoTagFound(repository: string, rest: string)
    requires ':' !in repository && '@' !in repository && (rest == "" || rest[0] == '@')
    ensures SegmentTag(repository + rest) == if rest == "" then LATEST else UNAVAILABLE
  {
    FindAfter(repository, '@', rest);
    assert (repository + rest)[..|repository|] == repository && repository + "" == repository;
    FindAfter(repository, ':', "");
  }

  /** Parsing undoes printing: the tag if there is one that is not empty, else as documented. */
  lemma TagOfPrinted(i: Image)
    requires WellFormed(i)
    ensures ParseImageTag(Print(i)) ==
      if i.tag.Some? then (if i.tag.value == "" then UNAVAILABLE else i.tag.value)
      else if i.digest.Some? then UNAVAILABLE else LATEST
  {
    SegmentHasNoSlash(i);
    LastSegmentOf(i.path, Segment(i));
    SegmentTagOf(i);
  }

  lemma SegmentHasNoSlash(i: Image)
    requires WellFormed(i)
    ensures '/' !in Segment(i)
  {
  }

  lemma SegmentTagOf(i: Image)
    requires WellFormed(i)
    ensures SegmentTag(Segment(i)) ==
      if i.tag.Some? then (if i.tag.value == "" then UNAVAILABLE else i.tag.value)
      else if i.digest.Some? then UNAVAILABLE else LATEST
  {
    var rest := Marked("@", i.digest);
    assert rest == "" || rest[0] == '@';
    if i.tag.Some? {
      TagFound(i.repository, i.tag.value, rest);
      assert i.repository + ":" + i.tag.value == i.repository + (":" + i.tag.value);
    } else {
      NoTagFound(i.repository, rest);
      assert i.repository + "" == i.repository;
    }
  }

  /** Whatever the input, the result is never empty. */
  lemma TagNeverEmpty(image: string)
    ensures ParseImageTag(image) != ""
  {
  }
}
