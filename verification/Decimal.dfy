/** Decimal printing of integers, as `format!("{}")` does it, and reading it back. */
module Decimal {
  predicate IsDigit(c: char) {
    '0' <= c <= '9'
  }

  function DigitChar(d: nat): (c: char)
    requires d < 10
    ensures IsDigit(c) && c as int - '0' as int == d
  {
    ('0' as int + d) as char
  }

  predicate AllDigits(s: string) {
    forall i :: 0 <= i < |s| ==> IsDigit(s[i])
  }

  function OfNat(n: nat): (s: string)
    ensures s != [] && AllDigits(s)
  {
    if n < 10 then [DigitChar(n)] else OfNat(n / 10) + [DigitChar(n % 10)]
  }

  function OfInt(i: int): (s: string)
    ensures s != [] && IsDigit(s[|s| - 1])
  {
    if i < 0 then "-" + OfNat(-i) else OfNat(i)
  }

  /** The value a digit string denotes. */
  function ToNat(s: string): nat
    requires AllDigits(s)
  {
    if s == [] then 0 else ToNat(s[..|s| - 1]) * 10 + (s[|s| - 1] as int - '0' as int)
  }

  lemma {:induction false} ToNatOfNat(n: nat)
    ensures ToNat(OfNat(n)) == n
  {
    var s := OfNat(n);
    if n < 10 {
      assert s[..|s| - 1] == [];
    } else {
      ToNatOfNat(n / 10);
      assert s[..|s| - 1] == OfNat(n / 10);
    }
  }

  /** Different numbers print differently. */
  lemma OfNatInjective(m: nat, n: nat)
    requires OfNat(m) == OfNat(n)
    ensures m == n
  {
    ToNatOfNat(m);
    ToNatOfNat(n);
  }

  function Pow10(k: nat): (p: nat)
    ensures p >= 1
  {
    if k == 0 then 1 else 10 * Pow10(k - 1)
  }

  /** A number below `10^k` prints in at most `k` digits. */
  lemma {:induction false} OfNatLength(n: nat, k: nat)
    requires 0 < k && n < Pow10(k)
    ensures |OfNat(n)| <= k
  {
    if n >= 10 {
      assert Pow10(k) == 10 * Pow10(k - 1);
      assert k > 1;
      OfNatLength(n / 10, k - 1);
    }
  }
}
