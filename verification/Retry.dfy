/** `withRetry` and its delays, in whole numbers: `tooling/utils/src/retry.ts`. */
module Retry {
  import opened Arithmetic
  import opened Optional

  datatype Outcome<T, E> = Success(value: T) | Failure(error: E)

  datatype Options = Options(maxRetries: int, baseDelayMs: int, maxDelayMs: int, jitter: bool)

  const DEFAULTS := Options(2, 250, 5_000, true)

  function Exponential(attempt: nat, o: Options): int {
    var doubled := o.baseDelayMs * Pow2(attempt);
    if o.maxDelayMs < doubled then o.maxDelayMs else doubled
  }

  /** `random` is what `Math.random()` returns: at least 0 and less than 1. */
  function ComputeBackoffDelay(attempt: nat, o: Options, random: real): int {
    var exponential := Exponential(attempt, o);
    if !o.jitter then exponential
    else
      var min := exponential / 2;
      var span := if exponential - min < 1 then 1 else exponential - min;
      min + (random * span as real).Floor
  }

  predicate IsRandom(r: real) { 0.0 <= r < 1.0 }

  predicate NotNegative(o: Options) { o.baseDelayMs >= 0 && o.maxDelayMs >= 0 }

  lemma FloorBelow(r: real, n: int)
    requires IsRandom(r) && n >= 1
    ensures 0 <= (r * n as real).Floor < n
  {
    var x := r * n as real;
    ProductBounds(r, n as real);
    assert x < n as real;
  }

  lemma ProductBounds(r: real, m: real)
    requires 0.0 <= r < 1.0 && m > 0.0
    ensures 0.0 <= r * m < m
  {
    assert (1.0 - r) * m > 0.0;
  }

  /** The delay before the next attempt if there is no jitter. */
  function PlainDelay(attempt: nat, o: Options): int {
    ComputeBackoffDelay(attempt, o.(jitter := false), 0.0)
  }

  /** Without jitter delays begin with the base and double, up to the cap, whatever the random numbers. */
  lemma DelaysDouble(attempt: nat, o: Options, random: real)
    requires NotNegative(o)
    ensures PlainDelay(0, o) == if o.maxDelayMs < o.baseDelayMs then o.maxDelayMs else o.baseDelayMs
    ensures var d := PlainDelay(attempt, o); PlainDelay(attempt + 1, o) == if o.maxDelayMs < 2 * d then o.maxDelayMs else 2 * d
    ensures !o.jitter ==> ComputeBackoffDelay(attempt, o, random) == PlainDelay(attempt, o)
  {
    DoubledNotNegative(attempt, o.baseDelayMs);
    Twice(o.baseDelayMs, attempt);
    assert Pow2(0) == 1;
  }

  lemma PlainAtMost(attempt: nat, o: Options)
    ensures PlainDelay(attempt, o) <= o.baseDelayMs * Pow2(attempt)
  {
  }

  /** With jitter a delay is anything from half of the plain one, rounded down, to just below it. */
  lemma DelayBounds(attempt: nat, o: Options, random: real)
    requires NotNegative(o) && IsRandom(random)
    ensures var e, d := PlainDelay(attempt, o), ComputeBackoffDelay(attempt, o, random);
            && 0 <= e <= o.maxDelayMs
            && (if o.jitter then e / 2 <= d <= (if e == 0 then 0 else e - 1) else d == e)
  {
    DoubledNotNegative(attempt, o.baseDelayMs);
    var e := Exponential(attempt, o);
    var min := e / 2;
    FloorBelow(random, if e - min < 1 then 1 else e - min);
  }

  lemma DoubledNotNegative(n: nat, base: int)
    requires base >= 0
    ensures base * Pow2(n) >= 0
  {
  }

  /** Every whole number in the range of the jitter is the delay for some random number. */
  lemma JitterReaches(attempt: nat, o: Options, d: int) returns (random: real)
    requires NotNegative(o) && o.jitter
    requires var e := PlainDelay(attempt, o); e > 0 && e / 2 <= d <= e - 1
    ensures IsRandom(random) && ComputeBackoffDelay(attempt, o, random) == d
  {
    var e := Exponential(attempt, o);
    var min := e / 2;
    var n, k := e - min, d - min;
    random := k as real / n as real;
    Quotient(k, n);
  }

  lemma Quotient(k: int, n: int)
    requires 0 <= k < n
    ensures IsRandom(k as real / n as real) && (k as real / n as real) * n as real == k as real
  {
  }

  // ---------------------------------------------------------------- attempts

  predicate Stops<T, E>(outcome: Outcome<T, E>, attempt: nat, isRetryable: E -> bool, maxRetries: int) {
    outcome.Success? || attempt >= maxRetries || !isRetryable(outcome.error)
  }

  /** Attempt `n` is the first one not to be retried. */
  ghost predicate EndsAt<T, E>(outcomes: nat -> Outcome<T, E>, n: nat, isRetryable: E -> bool, maxRetries: int) {
    && Stops(outcomes(n), n, isRetryable, maxRetries)
    && forall k :: 0 <= k < n ==> !Stops(outcomes(k), k, isRetryable, maxRetries)
  }

  /** What was slept before attempt `n`. */
  function Slept(o: Options, random: nat -> real, n: nat): int {
    if n == 0 then 0 else Slept(o, random, n - 1) + ComputeBackoffDelay(n - 1, o, random(n - 1))
  }

  /** `outcomes(k)` is what the operation would do at attempt `k`; `None` is the error of a loop that never ran. */
  method WithRetry<T, E>(outcomes: nat -> Outcome<T, E>, isRetryable: E -> bool, o: Options, random: nat -> real)
    returns (r: Result<T, Option<E>>, calls: nat, slept: int)
    ensures o.maxRetries < 0 ==> calls == 0 && r == Err(None)
    ensures o.maxRetries >= 0 ==>
              && 1 <= calls <= o.maxRetries + 1
              && EndsAt(outcomes, calls - 1, isRetryable, o.maxRetries)
              && r == (match outcomes(calls - 1) case Success(v) => Ok(v) case Failure(e) => Err(Some(e)))
    ensures slept == Slept(o, random, if calls == 0 then 0 else calls - 1)
  {
    hide ComputeBackoffDelay;
    var lastError: Option<E> := None;
    calls, slept := 0, 0;
    var attempt := 0;
    while attempt <= o.maxRetries
      invariant 0 <= attempt && (if o.maxRetries >= 0 then attempt <= o.maxRetries else attempt == 0 && lastError == None)
      invariant calls == attempt && slept == Slept(o, random, attempt)
      invariant forall k :: 0 <= k < attempt ==> !Stops(outcomes(k), k, isRetryable, o.maxRetries)
    {
      calls := calls + 1;
      match outcomes(attempt)
      case Success(value) =>
        return Ok(value), calls, slept;
      case Failure(error) =>
        lastError := Some(error);
        if attempt >= o.maxRetries || !isRetryable(error) {
          return Err(lastError), calls, slept;
        }
        slept := slept + ComputeBackoffDelay(attempt, o, random(attempt));
        attempt := attempt + 1;
    }
    return Err(lastError), calls, slept;
  }

  /** The attempt that ends it: there is one, and the contract of `WithRetry` admits no other. */
  lemma LastAttempt<T, E>(outcomes: nat -> Outcome<T, E>, isRetryable: E -> bool, maxRetries: nat) returns (last: nat)
    ensures last <= maxRetries && EndsAt(outcomes, last, isRetryable, maxRetries)
    ensures forall other: nat :: EndsAt(outcomes, other, isRetryable, maxRetries) ==> other == last
  {
    last := 0;
    while !Stops(outcomes(last), last, isRetryable, maxRetries)
      invariant last <= maxRetries
      invariant forall k :: 0 <= k < last ==> !Stops(outcomes(k), k, isRetryable, maxRetries)
      decreases maxRetries - last
    {
      last := last + 1;
    }
  }

  /** It is the first that succeeds, or fails for good, or uses up the retries. */
  lemma EndsAtMeans<T, E>(outcomes: nat -> Outcome<T, E>, n: nat, isRetryable: E -> bool, maxRetries: nat)
    ensures EndsAt(outcomes, n, isRetryable, maxRetries) <==>
              && n <= maxRetries
              && (forall k :: 0 <= k < n ==> outcomes(k).Failure? && isRetryable(outcomes(k).error))
              && (n < maxRetries && outcomes(n).Failure? ==> !isRetryable(outcomes(n).error))
  {
    if EndsAt(outcomes, n, isRetryable, maxRetries) && n > 0 {
      assert !Stops(outcomes(n - 1), n - 1, isRetryable, maxRetries);
    }
  }

  // ------------------------------------------------------------- total sleep

  lemma {:induction false} SleptAtMost(o: Options, random: nat -> real, n: nat)
    requires NotNegative(o) && forall k :: IsRandom(random(k))
    ensures 0 <= Slept(o, random, n) <= n * o.maxDelayMs
    ensures Slept(o, random, n) <= o.baseDelayMs * Pow2(n) - o.baseDelayMs
  {
    hide ComputeBackoffDelay;
    if n > 0 {
      SleptAtMost(o, random, n - 1);
      DelayBounds(n - 1, o, random(n - 1));
      PlainAtMost(n - 1, o);
      OneMore(n - 1, o.maxDelayMs);
      Twice(o.baseDelayMs, n - 1);
    }
  }

  lemma OneMore(n: nat, m: int)
    ensures (n + 1) * m == n * m + m
  {
  }

  lemma Twice(base: int, n: nat)
    ensures base * Pow2(n + 1) == base * Pow2(n) + base * Pow2(n)
  {
  }

  lemma Grows(o: Options, n: nat, m: nat)
    requires n <= m && NotNegative(o)
    ensures n * o.maxDelayMs <= m * o.maxDelayMs
    ensures o.baseDelayMs * Pow2(n) <= o.baseDelayMs * Pow2(m)
  {
    if n < m {
      Grows(o, n, m - 1);
      OneMore(m - 1, o.maxDelayMs);
      Twice(o.baseDelayMs, m - 1);
      DoubledNotNegative(m - 1, o.baseDelayMs);
    }
  }

  /** Unless told otherwise: three calls at most, and less than three quarters of a second of sleep. */
  lemma DefaultSleep(random: nat -> real, calls: nat)
    requires (forall k :: IsRandom(random(k))) && 1 <= calls <= DEFAULTS.maxRetries + 1
    ensures calls <= 3
    ensures calls == 2 ==> 125 <= Slept(DEFAULTS, random, calls - 1) <= 249
    ensures calls == 3 ==> 375 <= Slept(DEFAULTS, random, calls - 1) <= 748
  {
    hide ComputeBackoffDelay;
    DefaultDelays(random(0), random(1));
    assert Slept(DEFAULTS, random, 0) == 0;
    assert Slept(DEFAULTS, random, 1) == ComputeBackoffDelay(0, DEFAULTS, random(0));
    assert Slept(DEFAULTS, random, 2) == Slept(DEFAULTS, random, 1) + ComputeBackoffDelay(1, DEFAULTS, random(1));
  }

  lemma DefaultDelays(r: real, s: real)
    requires IsRandom(r) && IsRandom(s)
    ensures 125 <= ComputeBackoffDelay(0, DEFAULTS, r) <= 249 && 250 <= ComputeBackoffDelay(1, DEFAULTS, s) <= 499
  {
    assert Pow2(0) == 1 && Pow2(1) == 2;
    assert Exponential(0, DEFAULTS) == 250 && Exponential(1, DEFAULTS) == 500;
    assert 0.0 <= r * 125 as real < 125.0 && 0.0 <= s * 250 as real < 250.0;
  }

  /** Without jitter and below the cap the geometric sum is attained. */
  lemma {:induction false} SleptExactly(o: Options, random: nat -> real, n: nat)
    requires NotNegative(o) && !o.jitter && o.baseDelayMs * Pow2(n) <= o.maxDelayMs
    ensures Slept(o, random, n) == o.baseDelayMs * (Pow2(n) - 1)
  {
    if n > 0 {
      Twice(o.baseDelayMs, n - 1);
      DoubledNotNegative(n - 1, o.baseDelayMs);
      SleptExactly(o, random, n - 1);
      assert o.baseDelayMs * (Pow2(n) - 1) == o.baseDelayMs * Pow2(n) - o.baseDelayMs;
      assert o.baseDelayMs * (Pow2(n - 1) - 1) == o.baseDelayMs * Pow2(n - 1) - o.baseDelayMs;
    } else {
      assert Pow2(0) == 1;
    }
  }

  /** However the operation behaves, the sleep is bounded by the number of retries and by the geometric sum. */
  lemma TotalSleepBounded(o: Options, random: nat -> real, calls: nat)
    requires NotNegative(o) && (forall k :: IsRandom(random(k))) && 1 <= calls <= o.maxRetries + 1
    ensures 0 <= Slept(o, random, calls - 1) <= o.maxRetries * o.maxDelayMs
    ensures Slept(o, random, calls - 1) <= o.baseDelayMs * (Pow2(o.maxRetries) - 1)
  {
    SleptAtMost(o, random, calls - 1);
    Grows(o, calls - 1, o.maxRetries);
    assert o.baseDelayMs * (Pow2(o.maxRetries) - 1) == o.baseDelayMs * Pow2(o.maxRetries) - o.baseDelayMs;
  }
}
