/** `retry_with_backoff`: how often it calls, what it returns, and how long it sleeps. */
module Retry {
  import opened Reals

  datatype Attempt<T> = Ok(value: T) | Retryable(error: string) | Fatal(error: string)

  /** RaisedNone is `raise None`, which Python turns into a TypeError. */
  datatype Final<T> = Returned(value: T) | Raised(error: string) | RaisedNone

  function Pow2(n: nat): real {
    if n == 0 then 1.0 else 2.0 * Pow2(n - 1)
  }

  function Backoff(base: real, i: nat): real {
    base * Pow2(i)
  }

  /** The sleep after attempt i, for the random part u. */
  function Delay(base: real, max: real, i: nat, u: real): real {
    Min(Backoff(base, i) + u, max)
  }

  function Sum(xs: seq<real>): real {
    if xs == [] then 0.0 else Sum(xs[..|xs| - 1]) + xs[|xs| - 1]
  }

  /** A possible sleep after attempt i. */
  ghost predicate IsDelay(d: real, i: nat, base: real, max: real, jitter: real) {
    exists u :: 0.0 <= u <= jitter && d == Delay(base, max, i, u)
  }

  /** The sleeps of a call that is retried at most n times. */
  ghost predicate Sleeps(sleeps: seq<real>, n: nat, base: real, max: real, jitter: real) {
    |sleeps| <= n && forall i :: 0 <= i < |sleeps| ==> IsDelay(sleeps[i], i, base, max, jitter)
  }

  /** What a call ends in when it is not retried any more. */
  function FinalOf<T>(a: Attempt<T>): Final<T> {
    match a
    case Ok(v) => Returned(v)
    case Retryable(e) => Raised(e)
    case Fatal(e) => Raised(e)
  }

  /** The wrapper: `func(i)` is the outcome of call i and `random(i)` the jitter drawn after
      it, from 0 to `jitter`. */
  method Wrapper<T>(maxRetries: int, base: real, max: real, jitter: real, func: nat -> Attempt<T>, random: nat -> real)
    returns (final: Final<T>, calls: nat, sleeps: seq<real>)
    ensures maxRetries < 0 ==> final == RaisedNone && calls == 0 && sleeps == []
    ensures maxRetries >= 0 ==>
      && 1 <= calls <= maxRetries + 1
      && (match func(calls - 1)
          case Ok(v) => final == Returned(v)
          case Retryable(e) => final == Raised(e)
          case Fatal(e) => final == Raised(e))
      && (forall i: nat :: i < calls - 1 ==> func(i).Retryable?)
      && (calls <= maxRetries ==> !func(calls - 1).Retryable?)
    ensures |sleeps| == if calls == 0 then 0 else calls - 1
    ensures forall i :: 0 <= i < |sleeps| ==> sleeps[i] == Delay(base, max, i, random(i))
    ensures maxRetries >= 0 && (forall i: nat :: 0.0 <= random(i) <= jitter) ==>
      Sleeps(sleeps, maxRetries, base, max, jitter)
  {
    final, calls, sleeps := RaisedNone, 0, [];
    for attempt := 0 to if maxRetries < 0 then 0 else maxRetries + 1
      invariant calls == attempt
      invariant forall i: nat :: i < attempt ==> func(i).Retryable?
      invariant attempt > 0 ==> final == FinalOf(func(attempt - 1))
      invariant attempt == 0 ==> final == RaisedNone
      invariant maxRetries >= 0 && (forall i: nat :: 0.0 <= random(i) <= jitter) ==>
        Sleeps(sleeps, maxRetries, base, max, jitter)
      invariant |sleeps| == if attempt <= maxRetries then attempt else if attempt == 0 then 0 else attempt - 1
      invariant forall i :: 0 <= i < |sleeps| ==> sleeps[i] == Delay(base, max, i, random(i))
    {
      calls := calls + 1;
      final := FinalOf(func(attempt));
      if !func(attempt).Retryable? {
        return;
      }
      if attempt < maxRetries {
        sleeps := sleeps + [Delay(base, max, attempt, random(attempt))];
      }
    }
  }

  lemma {:induction false} Pow2Positive(n: nat)
    ensures Pow2(n) >= 1.0
  {
    if n > 0 {
      Pow2Positive(n - 1);
    }
  }

  lemma MulGrows(a: real, x: real, y: real)
    requires a >= 0.0 && x <= y
    ensures a * x <= a * y
  {
    assert a * (y - x) >= 0.0;
  }

  lemma NatMulGrows(a: real, m: nat, n: nat)
    requires a >= 0.0 && m <= n
    ensures m as real * a <= n as real * a
  {
    MulGrows(a, m as real, n as real);
  }

  /** n sleeps of the greatest length. */
  function Capped(n: nat, max: real): real {
    n as real * max
  }

  lemma CappedStep(n: nat, max: real)
    ensures Capped(n + 1, max) == Capped(n, max) + max
  {
  }

  /** The possible sleeps after attempt i: from base * 2^i up to one jitter more, cut at the cap. */
  lemma DelayExactly(d: real, i: nat, base: real, max: real, jitter: real)
    requires jitter >= 0.0
    ensures IsDelay(d, i, base, max, jitter) <==>
      d <= max && d <= base * Pow2(i) + jitter && (base * Pow2(i) <= d || d == max)
  {
    var x := base * Pow2(i);
    if d <= max && d <= x + jitter && (x <= d || d == max) {
      var u := if x <= d then d - x else 0.0;
      assert 0.0 <= u <= jitter && d == Delay(base, max, i, u);
    }
  }

  lemma {:induction false} UnderTheCap(sleeps: seq<real>, n: nat, base: real, max: real, jitter: real)
    requires Sleeps(sleeps, n, base, max, jitter)
    ensures Sum(sleeps) <= Capped(|sleeps|, max)
  {
    if sleeps != [] {
      var k := |sleeps| - 1;
      hide Capped, Backoff;
      UnderTheCap(sleeps[..k], n, base, max, jitter);
      assert IsDelay(sleeps[k], k, base, max, jitter);
      CappedStep(k, max);
    }
  }

  /** The sum of base * 2^i over i < n, with n full jitters. */
  function Exponential(n: nat, base: real, jitter: real): real {
    base * (Pow2(n) - 1.0) + n as real * jitter
  }

  lemma {:induction false} UnderTheExponential(sleeps: seq<real>, n: nat, base: real, max: real, jitter: real)
    requires Sleeps(sleeps, n, base, max, jitter)
    ensures Sum(sleeps) <= Exponential(|sleeps|, base, jitter)
  {
    if sleeps != [] {
      var k := |sleeps| - 1;
      hide Exponential, IsDelay, Backoff;
      UnderTheExponential(sleeps[..k], n, base, max, jitter);
      DelayAtMost(sleeps[k], k, base, max, jitter);
      ExponentialStep(k, base, jitter);
    }
  }

  lemma Split(base: real, p: real, k: nat, jitter: real)
    ensures base * (2.0 * p - 1.0) + (k + 1) as real * jitter ==
      base * (p - 1.0) + k as real * jitter + base * p + jitter
  {
    assert base * (2.0 * p - 1.0) == base * (p - 1.0) + base * p;
    assert (k + 1) as real * jitter == k as real * jitter + jitter;
  }

  lemma ExponentialStep(k: nat, base: real, jitter: real)
    ensures Exponential(k + 1, base, jitter) == Exponential(k, base, jitter) + Backoff(base, k) + jitter
  {
    Split(base, Pow2(k), k, jitter);
  }

  lemma DelayAtMost(d: real, i: nat, base: real, max: real, jitter: real)
    requires IsDelay(d, i, base, max, jitter)
    ensures d <= Backoff(base, i) + jitter
  {
  }

  lemma {:induction false} Pow2Grows(m: nat, n: nat)
    requires m <= n
    ensures Pow2(m) <= Pow2(n)
  {
    if m < n {
      Pow2Grows(m, n - 1);
      Pow2Positive(n - 1);
    }
  }

  lemma ExponentialGrows(k: nat, n: nat, base: real, jitter: real)
    requires base >= 0.0 && jitter >= 0.0 && k <= n
    ensures Exponential(k, base, jitter) <= Exponential(n, base, jitter)
  {
    Pow2Grows(k, n);
    SumGrows(base, Pow2(k) - 1.0, Pow2(n) - 1.0, k, n, jitter);
  }

  lemma SumGrows(base: real, x: real, y: real, k: nat, n: nat, jitter: real)
    requires base >= 0.0 && jitter >= 0.0 && k <= n && x <= y
    ensures base * x + k as real * jitter <= base * y + n as real * jitter
  {
    MulGrows(base, x, y);
    NatMulGrows(jitter, k, n);
  }

  lemma SleepUnderTheExponential(sleeps: seq<real>, n: nat, base: real, max: real, jitter: real)
    requires base >= 0.0 && jitter >= 0.0 && Sleeps(sleeps, n, base, max, jitter)
    ensures Sum(sleeps) <= Exponential(n, base, jitter)
  {
    hide Exponential;
    UnderTheExponential(sleeps, n, base, max, jitter);
    ExponentialGrows(|sleeps|, n, base, jitter);
  }

  lemma CappedGrows(max: real, m: nat, n: nat)
    requires max >= 0.0 && m <= n
    ensures Capped(m, max) <= Capped(n, max)
  {
    NatMulGrows(max, m, n);
  }

  lemma SleepUnderTheCap(sleeps: seq<real>, n: nat, base: real, max: real, jitter: real)
    requires max >= 0.0 && Sleeps(sleeps, n, base, max, jitter)
    ensures Sum(sleeps) <= Capped(n, max)
  {
    hide Capped;
    UnderTheCap(sleeps, n, base, max, jitter);
    CappedGrows(max, |sleeps|, n);
  }

  /** Total sleep stays under both the cap and the exponential sum. */
  lemma SleepIsBounded(sleeps: seq<real>, n: nat, base: real, max: real, jitter: real)
    requires base >= 0.0 && max >= 0.0 && jitter >= 0.0 && Sleeps(sleeps, n, base, max, jitter)
    ensures Sum(sleeps) <= Capped(n, max)
    ensures Sum(sleeps) <= Exponential(n, base, jitter)
  {
    SleepUnderTheCap(sleeps, n, base, max, jitter);
    SleepUnderTheExponential(sleeps, n, base, max, jitter);
  }

  /** The delay after attempt i, drawn with u, is no longer than the next, drawn with v. */
  ghost predicate Grows(base: real, max: real, i: nat, u: real, v: real) {
    Delay(base, max, i, u) <= Delay(base, max, i + 1, v)
  }

  /** Whatever the jitter drawn, each delay is at least the previous one, if and only if the
      jitter range is no wider than the base delay or the cap is reached by the second. */
  lemma DelaysGrowExactly(base: real, max: real, jitter: real)
    requires base >= 0.0 && jitter >= 0.0
    ensures (forall i: nat, u, v :: 0.0 <= u <= jitter && 0.0 <= v <= jitter ==> Grows(base, max, i, u, v))
      <==> jitter <= base || 2.0 * base >= max
  {
    if jitter <= base || 2.0 * base >= max {
      forall i: nat, u, v | 0.0 <= u <= jitter && 0.0 <= v <= jitter
        ensures Grows(base, max, i, u, v)
      {
        DelayGrows(base, max, jitter, i, u, v);
      }
    } else {
      BackoffStarts(base);
      hide Backoff;
      assert !Grows(base, max, 0, jitter, 0.0);
    }
  }

  lemma BackoffStarts(base: real)
    ensures Backoff(base, 0) == base && Backoff(base, 1) == base + base
  {
    assert Pow2(0) == 1.0 && Pow2(1) == 2.0;
  }

  lemma Doubled(a: real, p: real)
    ensures a * (2.0 * p) == a * p + a * p
  {
  }

  lemma BackoffDoubles(base: real, i: nat)
    requires base >= 0.0
    ensures Backoff(base, i) >= base && Backoff(base, i + 1) == Backoff(base, i) + Backoff(base, i)
  {
    var p := Pow2(i);
    Pow2Positive(i);
    MulGrows(base, 1.0, p);
    Doubled(base, p);
    assert Pow2(i + 1) == 2.0 * p;
  }

  lemma DelayGrows(base: real, max: real, jitter: real, i: nat, u: real, v: real)
    requires base >= 0.0 && 0.0 <= u <= jitter && 0.0 <= v <= jitter
    requires jitter <= base || 2.0 * base >= max
    ensures Grows(base, max, i, u, v)
  {
    hide Backoff;
    BackoffDoubles(base, i);
  }

  /** The refresh job (3 retries, base 1 s, cap 10 s, jitter 0.5 s) sleeps about 1, 2 and 4 s,
      at most 8.5 s in all. */
  lemma RefreshSleepsBriefly(sleeps: seq<real>)
    requires Sleeps(sleeps, 3, 1.0, 10.0, 0.5)
    ensures Sum(sleeps) <= 8.5
    ensures forall i :: 0 <= i < |sleeps| ==>
      var least := if i == 0 then 1.0 else if i == 1 then 2.0 else 4.0;
      least <= sleeps[i] <= least + 0.5
  {
    forall i | 0 <= i < |sleeps|
      ensures var least := if i == 0 then 1.0 else if i == 1 then 2.0 else 4.0; least <= sleeps[i] <= least + 0.5
    {
      assert IsDelay(sleeps[i], i, 1.0, 10.0, 0.5);
      DelayExactly(sleeps[i], i, 1.0, 10.0, 0.5);
      assert Pow2(0) == 1.0 && Pow2(1) == 2.0 && Pow2(2) == 4.0;
    }
    SleepIsBounded(sleeps, 3, 1.0, 10.0, 0.5);
    assert Pow2(1) == 2.0 && Pow2(2) == 4.0 && Pow2(3) == 8.0;
  }
}
