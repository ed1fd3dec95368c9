/** Capped exponential backoff with jitter. Durations are integers (nanoseconds); factors are exact
    reals, truncated towards zero when they become durations. */
module Retry {

  datatype Policy = Policy(maxAttempts: int, initialInterval: int, maxInterval: int, multiplier: real,
                           jitterFraction: real) {

    predicate Valid() {
      && 1 <= maxAttempts
      && 0 < initialInterval <= maxInterval
      && 1.0 <= multiplier
      && 0.0 <= jitterFraction <= 1.0
    }

    predicate ShouldRetry(attempts: int) {
      attempts < maxAttempts
    }

    function Scaled(attempt: int): real {
      Times(initialInterval as real, Power(multiplier, if attempt < 1 then 0 else attempt - 1))
    }

    function Backoff(attempt: int): int {
      if Scaled(attempt) > maxInterval as real then maxInterval else Truncate(Scaled(attempt))
    }

    function Spread(attempt: int): real {
      Times(Backoff(attempt) as real, jitterFraction)
    }

    function Clamp(wait: int): int {
      if wait < 0 then 0 else if wait > maxInterval then maxInterval else wait
    }

    /** `roll` is the random draw in [0, 1). */
    function BackoffWithJitter(attempt: int, roll: real): int {
      if jitterFraction == 0.0 then Backoff(attempt)
      else Clamp(Truncate(Backoff(attempt) as real + Times(Spread(attempt), 2.0 * roll - 1.0)))
    }

    function NextAttemptAt(now: int, attempt: int, roll: real): int {
      now + BackoffWithJitter(attempt, roll)
    }
  }

  function Times(x: real, y: real): real {
    x * y
  }

  function Power(b: real, n: nat): real {
    if n == 0 then 1.0 else Times(b, Power(b, n - 1))
  }

  function Truncate(x: real): int {
    if x >= 0.0 then x.Floor else -((-x).Floor)
  }

  // ----- Multiplication of reals, kept to these facts -----

  lemma TimesGrows(x: real, y: real)
    requires 1.0 <= x && 0.0 <= y
    ensures y <= Times(x, y)
  {
    assert x * y - y == (x - 1.0) * y;
  }

  lemma TimesMonotone(x: real, y: real, z: real)
    requires 0.0 <= x && y <= z
    ensures Times(x, y) <= Times(x, z)
  {
    assert x * z - x * y == x * (z - y);
  }

  lemma TimesFraction(x: real, f: real)
    requires 0.0 <= x && -1.0 <= f <= 1.0
    ensures -x <= Times(x, f) <= x
    ensures 0.0 <= f ==> 0.0 <= Times(x, f)
  {
    TimesMonotone(x, f, 1.0);
    TimesMonotone(x, -1.0, f);
    if 0.0 <= f { TimesMonotone(x, 0.0, f); }
  }

  lemma TimesBernoulli(b: real, x: real)
    requires 1.0 <= b && 1.0 <= x
    ensures Times(b, x) >= x + (b - 1.0)
  {
    assert b * x - x - (b - 1.0) == (b - 1.0) * (x - 1.0);
  }

  lemma Quotient(m: real, d: real) returns (q: real)
    requires 0.0 < d
    ensures Times(q, d) == m
  {
    q := m / d;
  }

  lemma TimesStrict(x: real, y: real, d: real)
    requires 0.0 < d && x < y
    ensures Times(x, d) < Times(y, d)
  {}

  lemma TimesSuccessor(n: real, d: real)
    ensures Times(n + 1.0, d) == Times(n, d) + d
  {}

  // ----- Growth -----

  lemma {:induction false} PowerGrows(b: real, m: nat, n: nat)
    requires 1.0 <= b && m <= n
    ensures 1.0 <= Power(b, m) <= Power(b, n)
    decreases n
  {
    hide Times;
    if n > 0 {
      PowerGrows(b, 0, n - 1);
      TimesGrows(b, Power(b, n - 1));
      if m < n { PowerGrows(b, m, n - 1); }
    }
  }

  lemma ScaledGrows(p: Policy, a: int, b: int)
    requires p.Valid() && a <= b
    ensures p.initialInterval as real <= p.Scaled(a) <= p.Scaled(b)
  {
    hide Times, Power;
    var m, n := if a < 1 then 0 else a - 1, if b < 1 then 0 else b - 1;
    PowerGrows(p.multiplier, m, n);
    var i := p.initialInterval as real;
    TimesMonotone(i, Power(p.multiplier, m), Power(p.multiplier, n));
    TimesMonotone(i, 1.0, Power(p.multiplier, m));
    assert Times(i, 1.0) == i by { TimesOne(i); }
  }

  lemma TimesOne(x: real)
    ensures Times(x, 1.0) == x
  {}

  /** The wait never shrinks from one attempt to the next and stays between the two intervals. */
  lemma BackoffIsMonotoneAndBounded(p: Policy, a: int, b: int)
    requires p.Valid() && a <= b
    ensures p.initialInterval <= p.Backoff(a) <= p.Backoff(b) <= p.maxInterval
  {
    hide Times, Power;
    ScaledGrows(p, a, b);
  }

  lemma TimesSwap(x: real, y: real, z: real)
    ensures Times(x, Times(y, z)) == Times(y, Times(x, z))
  {}

  lemma ScaledNext(p: Policy, attempt: int)
    requires 1 <= attempt
    ensures p.Scaled(attempt + 1) == Times(p.multiplier, p.Scaled(attempt))
  {
    hide Times;
    TimesSwap(p.initialInterval as real, p.multiplier, Power(p.multiplier, attempt - 1));
  }

  /** The first wait is the initial interval. */
  lemma FirstWait(p: Policy, attempt: int)
    requires p.Valid() && attempt <= 1
    ensures p.Backoff(attempt) == p.initialInterval
  {
    hide Times;
    TimesOne(p.initialInterval as real);
  }

  lemma TruncatedProduct(m: real, x: real)
    requires 0.0 <= m && 0.0 <= x
    ensures Times(m, Truncate(x) as real) - 1.0 < Truncate(Times(m, x)) as real
    ensures 0.0 < m ==> Truncate(Times(m, x)) as real < Times(m, Truncate(x) as real + 1.0)
  {
    hide Times;
    TimesMonotone(m, Truncate(x) as real, x);
    TimesMonotone(m, 0.0, x);
    assert Times(m, 0.0) == 0.0 by { TimesZero(m); }
    if 0.0 < m { TimesBelow(m, x, Truncate(x) as real + 1.0); }
  }

  lemma TimesZero(x: real)
    ensures Times(x, 0.0) == 0.0
  {}

  lemma TimesBelow(m: real, x: real, y: real)
    requires 0.0 < m && x < y
    ensures Times(m, x) < Times(m, y)
  {}

  /** Below the cap each wait is the multiplier times the one before, up to truncation. */
  lemma BackoffMultiplies(p: Policy, attempt: int)
    requires p.Valid() && 1 <= attempt && p.Backoff(attempt + 1) < p.maxInterval
    ensures Times(p.multiplier, p.Backoff(attempt) as real) - 1.0 < p.Backoff(attempt + 1) as real
    ensures p.Backoff(attempt + 1) as real < Times(p.multiplier, p.Backoff(attempt) as real + 1.0)
  {
    hide Times, Power, Policy.Scaled;
    ScaledGrows(p, attempt, attempt + 1);
    ScaledNext(p, attempt);
    TruncatedProduct(p.multiplier, p.Scaled(attempt));
  }

  lemma {:induction false} ScaledWhole(p: Policy, k: nat, attempt: int)
    requires p.Valid() && p.multiplier == k as real
    ensures p.Scaled(attempt) == p.Scaled(attempt).Floor as real
    decreases attempt
  {
    hide Times;
    if attempt <= 1 {
      TimesOne(p.initialInterval as real);
    } else {
      ScaledWhole(p, k, attempt - 1);
      ScaledNext(p, attempt - 1);
      TimesWhole(k, p.Scaled(attempt - 1).Floor);
    }
  }

  lemma TimesWhole(k: int, n: int)
    ensures Times(k as real, n as real) == (k * n) as real
  {}

  /** With a whole multiplier it is exactly that, until the cap. */
  lemma WholeBackoffMultiplies(p: Policy, k: nat, attempt: int)
    requires p.Valid() && p.multiplier == k as real && 1 <= attempt
    ensures var next := k * p.Backoff(attempt);
            p.Backoff(attempt + 1) == if next > p.maxInterval then p.maxInterval else next
  {
    hide Times, Power, Policy.Scaled;
    ScaledGrows(p, attempt, attempt + 1);
    ScaledNext(p, attempt);
    ScaledWhole(p, k, attempt);
    var n := p.Scaled(attempt).Floor;
    TimesWhole(k, n);
    if p.Scaled(attempt) > p.maxInterval as real { Scale(k, p.maxInterval); }
  }

  lemma Scale(k: int, n: int)
    requires 1 <= k && 0 <= n
    ensures n <= k * n
  {}

  /** Bernoulli's inequality. */
  lemma {:induction false} PowerAtLeastLinear(b: real, n: nat)
    requires 1.0 <= b
    ensures 1.0 + Times(n as real, b - 1.0) <= Power(b, n)
    decreases n
  {
    if n == 0 {
      assert Times(0.0, b - 1.0) == 0.0;
    } else {
      LinearStep(b, n);
    }
  }

  lemma LinearStep(b: real, n: nat)
    requires 1.0 <= b && 0 < n
    ensures 1.0 + Times(n as real, b - 1.0) <= Power(b, n)
    decreases n, 0
  {
    hide Times;
    PowerAtLeastLinear(b, n - 1);
    PowerGrows(b, 0, n - 1);
    TimesBernoulli(b, Power(b, n - 1));
    TimesSuccessor((n - 1) as real, b - 1.0);
    assert (n - 1) as real + 1.0 == n as real;
  }

  lemma CappedPast(p: Policy, attempt: int)
    requires p.Valid() && 1 <= attempt && p.maxInterval as real < 1.0 + Times((attempt - 1) as real, p.multiplier - 1.0)
    ensures p.Backoff(attempt) == p.maxInterval
  {
    hide Times, Power;
    PowerAtLeastLinear(p.multiplier, attempt - 1);
    TimesGrows(p.initialInterval as real, Power(p.multiplier, attempt - 1));
  }

  /** With a multiplier above one the backoff reaches the cap and stays there. */
  lemma BackoffSaturates(p: Policy) returns (point: nat)
    requires p.Valid() && p.multiplier > 1.0
    ensures forall attempt :: attempt >= point ==> p.Backoff(attempt) == p.maxInterval
  {
    hide Times, Power, Policy.Backoff;
    var d := p.multiplier - 1.0;
    var q := Quotient(p.maxInterval as real, d);
    point := (if q < 0.0 then 0 else q.Floor) + 2;
    forall attempt | attempt >= point
      ensures p.Backoff(attempt) == p.maxInterval
    {
      TimesStrict(q, (attempt - 1) as real, d);
      CappedPast(p, attempt);
    }
  }

  lemma {:induction false} PowerOfOne(n: nat)
    ensures Power(1.0, n) == 1.0
    decreases n
  {
    if n > 0 { PowerOfOne(n - 1); }
  }

  lemma FlatBackoff(p: Policy, attempt: int)
    requires p.Valid() && p.multiplier == 1.0
    ensures p.Backoff(attempt) == p.initialInterval
  {
    PowerOfOne(if attempt < 1 then 0 else attempt - 1);
    TimesOne(p.initialInterval as real);
  }

  /** The cap is reached at some attempt exactly when the backoff grows or starts at the cap. */
  lemma ReachesCapIff(p: Policy)
    requires p.Valid()
    ensures (exists attempt :: p.Backoff(attempt) == p.maxInterval) <==>
              p.multiplier > 1.0 || p.initialInterval == p.maxInterval
  {
    hide Times, Power, Policy.Backoff;
    if p.multiplier > 1.0 {
      var point := BackoffSaturates(p);
      assert p.Backoff(point) == p.maxInterval;
    } else {
      forall attempt
        ensures p.Backoff(attempt) == p.initialInterval
      {
        FlatBackoff(p, attempt);
      }
      assert p.Backoff(0) == p.initialInterval;
    }
  }

  /** A jittered wait stays within the cap and within the jitter fraction of the base, up to truncation. */
  lemma JitterStaysInBounds(p: Policy, attempt: int, roll: real)
    requires p.Valid() && 0.0 <= roll < 1.0
    ensures var base, wait := p.Backoff(attempt), p.BackoffWithJitter(attempt, roll);
            && 0 <= wait <= p.maxInterval
            && base as real - p.Spread(attempt) - 1.0 < wait as real <= base as real + p.Spread(attempt)
            && 0.0 <= p.Spread(attempt) <= base as real
  {
    hide Times, Power, Policy.Backoff;
    BackoffIsMonotoneAndBounded(p, attempt, attempt);
    TimesFraction(p.Backoff(attempt) as real, p.jitterFraction);
    TimesFraction(p.Spread(attempt), 2.0 * roll - 1.0);
  }

  /** The lowest draw takes the whole spread off the base, the middle one leaves it, and towards the highest the
      whole spread is added, up to the cap. */
  lemma JitterAtTheEnds(p: Policy, attempt: int)
    requires p.Valid()
    ensures var base := p.Backoff(attempt);
            && p.BackoffWithJitter(attempt, 0.0) == (base as real - p.Spread(attempt)).Floor
            && p.BackoffWithJitter(attempt, 0.5) == base
            && var top := (base as real + p.Spread(attempt)).Floor;
               p.BackoffWithJitter(attempt, 1.0) == if top > p.maxInterval then p.maxInterval else top
  {
    hide Times, Power, Policy.Backoff;
    BackoffIsMonotoneAndBounded(p, attempt, attempt);
    TimesFraction(p.Backoff(attempt) as real, p.jitterFraction);
    TimesEnds(p.Spread(attempt));
    if p.jitterFraction == 0.0 { TimesZero(p.Backoff(attempt) as real); }
  }

  lemma TimesEnds(x: real)
    ensures Times(x, 2.0 * 0.0 - 1.0) == -x && Times(x, 2.0 * 0.5 - 1.0) == 0.0 && Times(x, 2.0 * 1.0 - 1.0) == x
  {}

  /** In between, a higher draw never means a shorter wait. */
  lemma JitterGrows(p: Policy, attempt: int, low: real, high: real)
    requires p.Valid() && 0.0 <= low <= high <= 1.0
    ensures p.BackoffWithJitter(attempt, low) <= p.BackoffWithJitter(attempt, high)
  {
    hide Times, Power, Policy.Backoff;
    BackoffIsMonotoneAndBounded(p, attempt, attempt);
    TimesFraction(p.Backoff(attempt) as real, p.jitterFraction);
    TimesMonotone(p.Spread(attempt), 2.0 * low - 1.0, 2.0 * high - 1.0);
    var base := p.Backoff(attempt) as real;
    TruncateGrows(base + Times(p.Spread(attempt), 2.0 * low - 1.0), base + Times(p.Spread(attempt), 2.0 * high - 1.0));
  }

  lemma TruncateGrows(x: real, y: real)
    requires x <= y
    ensures Truncate(x) <= Truncate(y)
  {}
}
