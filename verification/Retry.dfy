/**
  Retrying with exponential backoff (crates/etl-destinations/src/retry.rs). The attempts'
  results are given as a script; the loop is followed as far as the script goes.
*/
module Retry {
  import opened Wrappers

  const MAX_U32 := 4294967295
  const MAX_DURATION := 18446744073709551615 * 1000000000 + 999999999   // nanoseconds

  datatype Policy = Policy(maxRetries: nat, initialDelay: nat, maxDelay: nat)

  predicate ValidPolicy(p: Policy) {
    p.maxRetries <= MAX_U32 && p.initialDelay <= MAX_DURATION && p.maxDelay <= MAX_DURATION
  }

  /** One attempt: success, or a failure the caller wants retried or not, with the delay it shapes. */
  datatype Attempt = Success | Failure(retry: bool, sleep: nat)

  datatype Slept = Slept(retryIndex: nat, baseDelay: nat, sleepDelay: nat)

  datatype Outcome = Running | Succeeded | GaveUp(totalAttempts: nat)

  function Min(a: nat, b: nat): (m: nat)
    ensures m <= a && m <= b && (m == a || m == b)
  {
    if a <= b then a else b
  }

  function Pow2(k: nat): (p: nat)
    ensures p >= 1
  {
    if k == 0 then 1 else 2 * Pow2(k - 1)
  }

  /** Doubles a duration; `None` on overflow. */
  function CheckedDouble(d: nat): Option<nat> {
    if 2 * d > MAX_DURATION then None else Some(2 * d)
  }

  /** The delay before retry number `k + 1`. */
  function BaseDelay(p: Policy, k: nat): nat {
    Min(p.initialDelay * Pow2(k), p.maxDelay)
  }

  lemma DelayStep(p: Policy, k: nat)
    requires ValidPolicy(p)
    ensures Min(CheckedDouble(BaseDelay(p, k)).GetOr(MAX_DURATION), p.maxDelay) == BaseDelay(p, k + 1)
  {
    assert p.initialDelay * Pow2(k + 1) == 2 * (p.initialDelay * Pow2(k));
  }

  /** An attempt that is followed by another one, given how many there were before it. */
  predicate Continues(p: Policy, a: Attempt, before: nat) {
    a.Failure? && a.retry && Min(before + 1, MAX_U32) <= p.maxRetries
  }

  /** How many attempts are made, if the script is long enough. */
  function Made(p: Policy, script: seq<Attempt>, i: nat): (n: nat)
    requires i <= |script|
    ensures n <= |script| - i
    decreases |script| - i
  {
    if i == |script| then 0 else if Continues(p, script[i], i) then 1 + Made(p, script, i + 1) else 1
  }

  lemma DelayDoubles(p: Policy, k: nat)
    requires k > 0
    ensures BaseDelay(p, 0) == Min(p.initialDelay, p.maxDelay)
    ensures BaseDelay(p, k) == Min(2 * BaseDelay(p, k - 1), p.maxDelay)
  {
    assert p.initialDelay * Pow2(k) == 2 * (p.initialDelay * Pow2(k - 1));
  }

  lemma Doubled(p: Policy, slept: seq<Slept>)
    requires forall k :: 0 <= k < |slept| ==> slept[k].baseDelay == BaseDelay(p, k)
    ensures slept != [] ==> slept[0].baseDelay == Min(p.initialDelay, p.maxDelay)
    ensures forall k :: 0 < k < |slept| ==> slept[k].baseDelay == Min(2 * slept[k - 1].baseDelay, p.maxDelay)
  {
    DelayDoubles(p, 1);
    forall k | 0 < k < |slept| ensures slept[k].baseDelay == Min(2 * slept[k - 1].baseDelay, p.maxDelay) { DelayDoubles(p, k); }
  }

  /**
    `retry_with_backoff`. Retries are numbered 1, 2, 3 and so on up to the largest counter
    value, each after the capped power-of-two delay; every attempt but the last is followed
    by one sleep; a run that still goes on has used up the script.
  */
  method RetryWithBackoff(p: Policy, script: seq<Attempt>) returns (slept: seq<Slept>, r: Outcome)
    requires ValidPolicy(p)
    ensures |slept| <= |script|
    ensures forall k :: 0 <= k < |slept| ==>
      Continues(p, script[k], k) && slept[k] == Slept(Min(k + 1, MAX_U32), BaseDelay(p, k), script[k].sleep)
    ensures r == Running ==> |slept| == |script|
    ensures r != Running ==> |slept| < |script| && !Continues(p, script[|slept|], |slept|)
    ensures r == Succeeded <==> |slept| < |script| && script[|slept|].Success?
    ensures r.GaveUp? ==> r.totalAttempts == Min(|slept| + 1, MAX_U32)
    ensures Made(p, script, 0) == |slept| + if r == Running then 0 else 1
    ensures slept != [] ==> slept[0].baseDelay == Min(p.initialDelay, p.maxDelay)
    ensures forall k :: 0 < k < |slept| ==> slept[k].baseDelay == Min(2 * slept[k - 1].baseDelay, p.maxDelay)
  {
    slept := [];
    var totalAttempts := 0;
    var baseDelay := Min(p.initialDelay, p.maxDelay);
    var i := 0;
    while i < |script|
      invariant 0 <= i <= |script| && |slept| == i
      invariant totalAttempts == Min(i, MAX_U32)
      invariant Made(p, script, 0) == i + Made(p, script, i)
      invariant baseDelay == BaseDelay(p, i)
      invariant forall k :: 0 <= k < i ==> Continues(p, script[k], k)
      invariant forall k :: 0 <= k < i ==> slept[k] == Slept(Min(k + 1, MAX_U32), BaseDelay(p, k), script[k].sleep)
    {
      totalAttempts := Min(totalAttempts + 1, MAX_U32);
      match script[i] {
        case Success =>
          Doubled(p, slept);
          return slept, Succeeded;
        case Failure(retry, sleep) =>
          var retryIndex := totalAttempts;
          if retryIndex > p.maxRetries || !retry {
            Doubled(p, slept);
            return slept, GaveUp(totalAttempts);
          }
          slept := slept + [Slept(retryIndex, baseDelay, sleep)];
          DelayStep(p, i);
          baseDelay := Min(CheckedDouble(baseDelay).GetOr(MAX_DURATION), p.maxDelay);
      }
      i := i + 1;
    }
    r := Running;
    Doubled(p, slept);
  }

  lemma {:induction false} MadeBound(p: Policy, script: seq<Attempt>, i: nat)
    requires ValidPolicy(p) && p.maxRetries < MAX_U32 && i <= |script| && i <= p.maxRetries
    ensures i + Made(p, script, i) <= p.maxRetries + 1
    decreases |script| - i
  {
    if i < |script| && Continues(p, script[i], i) && i < p.maxRetries { MadeBound(p, script, i + 1); }
  }

  /** A failing operation that the caller always wants retried. */
  function AlwaysFailing(n: nat): (s: seq<Attempt>)
    ensures |s| == n && forall k :: 0 <= k < n ==> s[k] == Failure(true, 0)
  {
    seq(n, _ => Failure(true, 0))
  }

  lemma {:induction false} NeverStops(p: Policy, n: nat, i: nat)
    requires ValidPolicy(p) && p.maxRetries == MAX_U32 && i <= n
    ensures Made(p, AlwaysFailing(n), i) == n - i
    decreases n - i
  {
    if i < n { NeverStops(p, n, i + 1); }
  }

  /** An operation that always fails and is always to be retried is attempted exactly once more than the limit. */
  lemma {:induction false} UsesTheLimit(p: Policy, n: nat, i: nat)
    requires ValidPolicy(p) && p.maxRetries < MAX_U32 && i <= p.maxRetries < n
    ensures Made(p, AlwaysFailing(n), i) == p.maxRetries + 1 - i
    decreases n - i
  {
    if i < p.maxRetries { UsesTheLimit(p, n, i + 1); }
  }

  /**
    The number of attempts is bounded for every script, namely by one more than the retry
    limit, exactly if the limit is below the largest counter value: there the counter
    saturates at the limit and never exceeds it.
  */
  lemma BoundedIff(p: Policy)
    requires ValidPolicy(p)
    ensures (forall script: seq<Attempt> :: Made(p, script, 0) <= p.maxRetries + 1) <==> p.maxRetries < MAX_U32
  {
    if p.maxRetries < MAX_U32 {
      forall script: seq<Attempt> ensures Made(p, script, 0) <= p.maxRetries + 1 { MadeBound(p, script, 0); }
    } else {
      NeverStops(p, MAX_U32 + 2, 0);
    }
  }

  /** Delays never shrink and never exceed the maximum. */
  lemma {:induction false} DelaysGrow(p: Policy, j: nat, k: nat)
    requires j <= k
    ensures BaseDelay(p, j) <= BaseDelay(p, k) <= p.maxDelay
    decreases k - j
  {
    if j < k {
      DelaysGrow(p, j, k - 1);
      assert p.initialDelay * Pow2(k) == 2 * (p.initialDelay * Pow2(k - 1));
    }
  }
}
