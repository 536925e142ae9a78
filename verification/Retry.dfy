/** Stripe calls with capped exponential backoff. Delays are whole milliseconds. */
module Retry {
  import opened Foundations

  datatype StripeError = Connection | RateLimit | Api(status: Option<int>) | OtherError

  datatype Attempt<+T> = Success(value: T) | Failure(error: StripeError)

  /** What the caller gets: a value, the last error, or (when no call was made at all) a thrown `undefined`. */
  datatype Result<+T> = Returned(value: T) | Threw(error: StripeError) | ThrewNothing

  const MAX_DELAY := 10000

  predicate IsRetryable(e: StripeError) { e.Connection? || e.RateLimit? || (e.Api? && e.status.Some? && e.status.value >= 500) }

  function Pow2(n: nat): (p: nat)
    ensures p >= 1
  {
    if n == 0 then 1 else 2 * Pow2(n - 1)
  }

  function Delay(baseMs: int, attempt: nat, jitter: int): int { Min(baseMs * Pow2(attempt) + jitter, MAX_DELAY) }

  /** `Math.floor(Math.random() * base * 0.1)`: a whole number from 0 up to a tenth of the base. */
  predicate IsJitter(baseMs: int, jitter: int) { 0 <= jitter && 10 * jitter <= baseMs }

  function Total(delays: seq<int>): int { Sum((d: int) => d, delays) }

  /** The outcomes the calls would have and the random jitter of each wait. */
  datatype Trial<T> = Trial(outcomes: seq<Attempt<T>>, jitters: seq<int>)

  predicate Covers<T>(t: Trial<T>, baseMs: int, maxRetries: int) {
    && |t.outcomes| > maxRetries && |t.jitters| > maxRetries
    && forall i | 0 <= i < |t.jitters| :: IsJitter(baseMs, t.jitters[i])
  }

  function Delays<T>(t: Trial<T>, baseMs: int, n: nat): seq<int>
    requires n <= |t.jitters|
  {
    seq(n, i requires 0 <= i < n => Delay(baseMs, i, t.jitters[i]))
  }

  class StripeService {
    const maxRetries: int
    const baseDelayMs: int

    constructor (maxRetries: int, baseDelayMs: int)
      ensures this.maxRetries == maxRetries && this.baseDelayMs == baseDelayMs
    {
      this.maxRetries := maxRetries;
      this.baseDelayMs := baseDelayMs;
    }

    /**
     * With n retries: n + 1 calls, at most maxRetries + 1; every call but the last failed with a retryable
     * error; the result is the last call's, which is a success, not retryable, or the last one allowed.
     */
    method WithRetry<T>(t: Trial<T>) returns (r: Result<T>, calls: nat, delays: seq<int>)
      requires Covers(t, baseDelayMs, maxRetries)
      ensures maxRetries < 0 ==> calls == 0 && r == ThrewNothing && delays == []
      ensures maxRetries >= 0 ==>
        && 1 <= calls <= maxRetries + 1
        && (forall i | 0 <= i < calls - 1 :: t.outcomes[i].Failure? && IsRetryable(t.outcomes[i].error))
        && (match t.outcomes[calls - 1]
            case Success(v) => r == Returned(v)
            case Failure(e) => r == Threw(e) && (!IsRetryable(e) || calls == maxRetries + 1))
        && delays == Delays(t, baseDelayMs, calls - 1)
      // The errors that are retried: lost connections, rate limits, and Stripe's own 5xx answers.
      ensures forall i | 0 <= i < calls - 1 :: t.outcomes[i].Failure? && t.outcomes[i].error != OtherError
                && t.outcomes[i].error != Api(None) && (t.outcomes[i].error.Api? ==> t.outcomes[i].error.status.value >= 500)
      ensures r.Threw? && calls <= maxRetries ==>
                r.error in {OtherError, Api(None)} || (r.error.Api? && r.error.status.value < 500)
    {
      r, calls, delays := ThrewNothing, 0, [];
      var attempt := 0;
      while attempt <= maxRetries
        invariant 0 <= attempt && (maxRetries >= 0 ==> attempt <= maxRetries) && calls == attempt
        invariant maxRetries < 0 ==> r == ThrewNothing
        invariant attempt > 0 ==> maxRetries >= 0
        invariant forall i | 0 <= i < calls :: t.outcomes[i].Failure? && IsRetryable(t.outcomes[i].error)
        invariant attempt <= |t.jitters| && delays == Delays(t, baseDelayMs, attempt)
        decreases maxRetries - attempt
      {
        calls := calls + 1;
        match t.outcomes[attempt] {
          case Success(v) =>
            return Returned(v), calls, delays;
          case Failure(e) =>
            r := Threw(e);
            if !IsRetryable(e) || attempt == maxRetries {
              return;
            }
            var exponential := baseDelayMs * Pow2(attempt);
            var delayMs := Min(exponential + t.jitters[attempt], MAX_DELAY);
            delays := delays + [delayMs];
        }
        attempt := attempt + 1;
      }
    }
  }

  // ---- The waits ----

  /** The i-th wait: the base doubled i times, plus at most a tenth of the base, and never more than ten seconds. */
  lemma DelayRange<T>(t: Trial<T>, baseMs: int, maxRetries: int, n: nat, i: nat)
    requires Covers(t, baseMs, maxRetries) && i < n <= |t.jitters|
    ensures Min(baseMs * Pow2(i), 10000) <= Delays(t, baseMs, n)[i] <= Min(baseMs * Pow2(i) + baseMs / 10, 10000)
    ensures Delays(t, baseMs, n)[i] == Min(baseMs * Pow2(i) + t.jitters[i], 10000)
    ensures Pow2(0) == 1 && Pow2(i + 1) == 2 * Pow2(i)
  {
    assert IsJitter(baseMs, t.jitters[i]);
  }

  /** Whatever the jitter, a later wait is never shorter. */
  lemma DelaysNeverDecrease<T>(t: Trial<T>, baseMs: int, maxRetries: int, n: nat, i: nat, j: nat)
    requires Covers(t, baseMs, maxRetries) && n <= |t.jitters| && i <= j < n
    ensures Delays(t, baseMs, n)[i] <= Delays(t, baseMs, n)[j]
    ensures 0 <= Delays(t, baseMs, n)[i] <= 10000
  {
    assert IsJitter(baseMs, t.jitters[i]) && IsJitter(baseMs, t.jitters[j]);
    assert baseMs >= 0;
    Scaled(baseMs, i);
    if i < j {
      PowersGrow(i, j);
      Product(baseMs, 2 * Pow2(i), Pow2(j));
      assert baseMs * (2 * Pow2(i)) == baseMs * Pow2(i) + baseMs * Pow2(i);
    }
  }

  lemma Scaled(baseMs: int, i: nat)
    requires baseMs >= 0
    ensures baseMs * Pow2(i) >= baseMs
  {
    Product(baseMs, 1, Pow2(i));
  }

  lemma Product(a: int, b: int, c: int)
    requires a >= 0 && b <= c
    ensures a * b <= a * c
  {
    assert a * (c - b) >= 0;
  }

  lemma {:induction false} PowersGrow(i: nat, j: nat)
    requires i < j
    ensures 2 * Pow2(i) <= Pow2(j)
    decreases j
  {
    if i < j - 1 {
      PowersGrow(i, j - 1);
    }
  }

  /** With n retries the total sleep is at most min(n * 10000, base * (2^n - 1) + n * base / 10). */
  lemma {:induction false} TotalSleepIsBounded<T>(t: Trial<T>, baseMs: int, maxRetries: int, n: nat)
    requires Covers(t, baseMs, maxRetries) && n <= |t.jitters|
    ensures 0 <= Total(Delays(t, baseMs, n)) <= n * 10000
    ensures 10 * Total(Delays(t, baseMs, n)) <= 10 * baseMs * (Pow2(n) - 1) + n * baseMs
    decreases n
  {
    if n > 0 {
      TotalSleepIsBounded(t, baseMs, maxRetries, n - 1);
      DelaysNeverDecrease(t, baseMs, maxRetries, n, n - 1, n - 1);
      var front, last := Delays(t, baseMs, n - 1), Delays(t, baseMs, n)[n - 1];
      assert Delays(t, baseMs, n) == front + [last];
      SumAppend((d: int) => d, front, last);
      assert IsJitter(baseMs, t.jitters[n - 1]);
      BoundGrows(baseMs, Pow2(n - 1), n, Total(front), last, t.jitters[n - 1]);
    }
  }

  lemma BoundGrows(baseMs: int, p: int, n: nat, front: int, last: int, jitter: int)
    requires n > 0 && 10 * front <= 10 * baseMs * (p - 1) + (n - 1) * baseMs
    requires last <= baseMs * p + jitter && 10 * jitter <= baseMs
    ensures 10 * (front + last) <= 10 * baseMs * (2 * p - 1) + n * baseMs
  {
    var x := baseMs * p;
    assert 10 * baseMs * (p - 1) == 10 * x - 10 * baseMs;
    assert 10 * baseMs * (2 * p - 1) == 20 * x - 10 * baseMs;
    assert (n - 1) * baseMs == n * baseMs - baseMs;
  }
}
