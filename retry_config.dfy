/**
 * Exponential backoff: attempt `a` waits `initial * multiplier^(a-1)`
 * milliseconds, converted to a Java `long` and capped at the maximum.
 */
module RetryConfigs {

  const LongMin: int := -0x8000_0000_0000_0000
  const LongMax: int := 0x7fff_ffff_ffff_ffff

  /** The multiplier is a Java `double`, modelled as an exact real. */
  datatype RetryConfig = RetryConfig(maxAttempts: int, initialBackoffMs: int, maxBackoffMs: int, multiplier: real)

  /** `RetryConfig.defaultConfig()`: three attempts, 1 s initial backoff, 30 s cap, doubling. */
  function DefaultConfig(): (c: RetryConfig)
    ensures c.maxAttempts == 3 && c.initialBackoffMs == 1000 && c.maxBackoffMs == 30000 && c.multiplier == 2.0
  {
    RetryConfig(3, 1000, 30000, 2.0)
  }

  /** `Math.pow(m, n)` for a natural exponent. */
  function Pow(m: real, n: nat): real
  {
    if n == 0 then 1.0 else m * Pow(m, n - 1)
  }

  /** The `(long)` cast of a double: round toward zero, saturating at the `long` range. */
  function ToLong(x: real): (r: int)
    ensures LongMin <= r <= LongMax
    ensures LongMin as real <= x <= LongMax as real ==> (r as real <= x < r as real + 1.0 || r as real - 1.0 < x <= r as real)
    ensures 0.0 <= x ==> 0 <= r
  {
    if x >= LongMax as real then LongMax
    else if x <= LongMin as real then LongMin
    else if x >= 0.0 then x.Floor
    else -((-x).Floor)
  }

  function MinInt(a: int, b: int): int { if a <= b then a else b }

  /** The uncapped waiting time of attempt `attempt`, before the cast to `long`. */
  function Exponential(c: RetryConfig, attempt: int): real
    requires attempt > 0
  {
    c.initialBackoffMs as real * Pow(c.multiplier, attempt - 1)
  }

  /** `calculateBackoff`: 0 for attempts up to 0, otherwise the capped exponential. */
  function CalculateBackoff(c: RetryConfig, attempt: int): (r: int)
    ensures attempt <= 0 ==> r == 0
    ensures attempt > 0 ==> r <= c.maxBackoffMs
    ensures attempt > 0 ==> r == c.maxBackoffMs || r == ToLong(Exponential(c, attempt))
    ensures attempt > 0 ==> r <= ToLong(Exponential(c, attempt))
  {
    if attempt <= 0 then 0 else MinInt(ToLong(Exponential(c, attempt)), c.maxBackoffMs)
  }

  lemma {:induction false} PowMonotone(m: real, i: nat, j: nat)
    requires m >= 1.0 && i <= j
    ensures 1.0 <= Pow(m, i) <= Pow(m, j)
    decreases j
  {
    if j > i {
      PowMonotone(m, i, j - 1);
      MulAtLeast(m, Pow(m, j - 1));
    } else if i > 0 {
      PowMonotone(m, i - 1, i - 1);
      MulAtLeast(m, Pow(m, i - 1));
    }
  }

  lemma MulAtLeast(m: real, p: real)
    requires m >= 1.0 && p >= 1.0
    ensures m * p >= p
  {
  }

  lemma MulMonotone(k: real, p: real, q: real)
    requires 0.0 <= k && p <= q
    ensures k * p <= k * q
  {
  }

  lemma ToLongMonotone(x: real, y: real)
    requires x <= y
    ensures ToLong(x) <= ToLong(y)
  {
  }

  /**
   * With a non-negative start and a multiplier of at least 1 the backoff
   * never shrinks from one attempt to the next and never exceeds the cap.
   */
  lemma BackoffMonotone(c: RetryConfig, a: int, b: int)
    requires 0 <= c.initialBackoffMs && 1.0 <= c.multiplier
    requires 0 < a <= b
    ensures CalculateBackoff(c, a) <= CalculateBackoff(c, b) <= c.maxBackoffMs
  {
    PowMonotone(c.multiplier, a - 1, b - 1);
    MulMonotone(c.initialBackoffMs as real, Pow(c.multiplier, a - 1), Pow(c.multiplier, b - 1));
    ToLongMonotone(Exponential(c, a), Exponential(c, b));
  }

  /** A non-negative configuration never yields a negative backoff. */
  lemma BackoffNonNegative(c: RetryConfig, a: int)
    requires 0 <= c.initialBackoffMs && 0 <= c.maxBackoffMs && 0.0 <= c.multiplier
    ensures 0 <= CalculateBackoff(c, a)
  {
    if a > 0 {
      PowNonNegative(c.multiplier, a - 1);
      MulMonotone(c.initialBackoffMs as real, 0.0, Pow(c.multiplier, a - 1));
    }
  }

  lemma {:induction false} PowNonNegative(m: real, n: nat)
    requires 0.0 <= m
    ensures 0.0 <= Pow(m, n)
  {
    if n > 0 { PowNonNegative(m, n - 1); }
  }

  /** The doubling schedule of 1 s capped at 10 s: 0, 1000, 2000, 4000, 8000, then 10000. */
  lemma DoublingSchedule()
    ensures var c := RetryConfig(5, 1000, 10000, 2.0);
      CalculateBackoff(c, 0) == 0 && CalculateBackoff(c, 1) == 1000 && CalculateBackoff(c, 2) == 2000
      && CalculateBackoff(c, 3) == 4000 && CalculateBackoff(c, 4) == 8000 && CalculateBackoff(c, 5) == 10000
  {
    assert Pow(2.0, 4) == 16.0;
  }
}
