/** Bounded exponential backoff with jitter, over the reals. */
module Backoff {
  import opened Work

  function Pow(x: real, n: nat): real {
    if n == 0 then 1.0 else x * Pow(x, n - 1)
  }

  function Min(a: real, b: real): real { if a <= b then a else b }
  function Max(a: real, b: real): real { if a >= b then a else b }

  /** min(max_delay, base * multiplier ** (attempt - 1)). */
  function Capped(retry: RetryPolicy, attempt: nat): real
    requires attempt >= 1
  {
    Min(retry.maxDelay, retry.baseDelay * Pow(retry.multiplier, attempt - 1))
  }

  function Jittered(retry: RetryPolicy, capped: real, draw: real): real {
    Max(0.0, if retry.jitter != 0.0 then capped * draw else capped)
  }

  /** _backoff_delay; draw is what rng.uniform(1 - jitter, 1 + jitter) gives, if it is asked. */
  function BackoffDelay(retry: RetryPolicy, attempt: nat, draw: real): real
    requires attempt >= 1
  {
    Jittered(retry, Capped(retry, attempt), draw)
  }

  predicate Sensible(retry: RetryPolicy) {
    retry.baseDelay >= 0.0 && retry.maxDelay >= 0.0 && retry.multiplier >= 1.0 && 0.0 <= retry.jitter <= 1.0
  }

  predicate DrawnFrom(retry: RetryPolicy, draw: real) {
    1.0 - retry.jitter <= draw <= 1.0 + retry.jitter
  }

  lemma Scale(a: real, b: real, c: real)
    requires a <= b && c >= 0.0
    ensures a * c <= b * c && c * a <= c * b
  {}

  lemma {:induction false} PowGrows(x: real, n: nat)
    requires x >= 1.0
    ensures Pow(x, n) >= 1.0 && Pow(x, n + 1) >= Pow(x, n)
  {
    if n > 0 {
      PowGrows(x, n - 1);
    }
    Scale(1.0, x, Pow(x, n));
  }

  lemma BernoulliStep(x: real, p: real, n: nat)
    requires n > 0 && x >= 1.0 && p >= 1.0 + (n - 1) as real * (x - 1.0)
    ensures x * p >= 1.0 + n as real * (x - 1.0)
  {
    var y, m := x - 1.0, (n - 1) as real;
    Scale(0.0, m, y);
    Scale(1.0, p, y);
    assert x * p == p + y * p;
    assert n as real * y == m * y + y;
  }

  /** Bernoulli's inequality. */
  lemma {:induction false} PowAtLeastLinear(x: real, n: nat)
    requires x >= 1.0
    ensures Pow(x, n) >= 1.0 + n as real * (x - 1.0)
  {
    if n > 0 {
      PowAtLeastLinear(x, n - 1);
      var y, p := x - 1.0, Pow(x, n - 1);
      Scale(0.0, (n - 1) as real, y);
      Scale(1.0, p, y);
      BernoulliStep(x, p, n);
      assert Pow(x, n) == x * p;
    }
  }

  lemma CappedStep(retry: RetryPolicy, attempt: nat)
    requires Sensible(retry) && attempt >= 1
    ensures 0.0 <= Capped(retry, attempt) <= Capped(retry, attempt + 1) <= retry.maxDelay
  {
    var p, q := Pow(retry.multiplier, attempt - 1), Pow(retry.multiplier, attempt);
    PowGrows(retry.multiplier, attempt - 1);
    ShareGrows(retry.maxDelay, retry.baseDelay, p, q);
  }

  lemma ShareGrows(cap: real, base: real, p: real, q: real)
    requires 0.0 <= cap && 0.0 <= base && 0.0 <= p <= q
    ensures 0.0 <= Min(cap, base * p) <= Min(cap, base * q) <= cap
  {
    assert 0.0 <= base * p by { Scale(0.0, p, base); }
    assert base * p <= base * q by { Scale(p, q, base); }
    MinGrows(cap, base * p, base * q);
  }

  lemma MinGrows(cap: real, a: real, b: real)
    requires 0.0 <= cap && 0.0 <= a <= b
    ensures 0.0 <= Min(cap, a) <= Min(cap, b) <= cap
  {}

  /** The first delay is the base delay, each further one the multiple of the one before, and
      none of them exceeds the cap. */
  lemma CappedStarts(retry: RetryPolicy)
    requires Sensible(retry)
    ensures Capped(retry, 1) == if retry.baseDelay <= retry.maxDelay then retry.baseDelay else retry.maxDelay
  {
    assert Pow(retry.multiplier, 0) == 1.0;
  }

  lemma CappedMultiplies(retry: RetryPolicy, n: nat, next: real)
    requires Sensible(retry) && n >= 1 && next == retry.multiplier * Capped(retry, n)
    ensures Capped(retry, n + 1) == if next <= retry.maxDelay then next else retry.maxDelay
  {
    var p, q := Pow(retry.multiplier, n - 1), Pow(retry.multiplier, n);
    PowGrows(retry.multiplier, n - 1);
    PowStep(retry.multiplier, n, p, q);
    CapThenMultiply(retry.maxDelay, retry.baseDelay, retry.multiplier, p, q, Capped(retry, n), next);
  }

  lemma PowStep(x: real, n: nat, p: real, q: real)
    requires n >= 1 && p == Pow(x, n - 1) && q == Pow(x, n)
    ensures q == x * p
  {}

  /** Capping before or after multiplying comes to the same. */
  lemma CapThenMultiply(cap: real, base: real, m: real, p: real, q: real, c: real, next: real)
    requires 0.0 <= cap && 0.0 <= base && m >= 1.0 && p >= 1.0 && q == m * p
    requires c == Min(cap, base * p) && next == m * c
    ensures Min(cap, base * q) == if next <= cap then next else cap
  {
    var raw := base * p;
    assert base * q == m * raw by { Reassociate(base, m, p); }
    if raw > cap {
      assert m * raw >= raw by { Scale(1.0, m, raw); }
      assert next >= cap by { Scale(1.0, m, cap); }
    }
  }

  lemma Reassociate(a: real, b: real, c: real)
    ensures a * (b * c) == b * (a * c)
  {}

  /** The powers of x are the one sequence that starts at 1 and multiplies by x. */
  lemma {:induction false} PowersAre(x: real, power: nat -> real, n: nat)
    requires power(0) == 1.0 && forall k: nat :: power(k + 1) == x * power(k)
    ensures power(n) == Pow(x, n)
  {
    if n > 0 {
      PowersAre(x, power, n - 1);
      assert power(n - 1 + 1) == x * power(n - 1);
    }
  }

  /** The un-jittered delay never shrinks from one attempt to a later one. */
  lemma {:induction false} CappedGrows(retry: RetryPolicy, early: nat, late: nat)
    requires Sensible(retry) && 1 <= early <= late
    ensures 0.0 <= Capped(retry, early) <= Capped(retry, late) <= retry.maxDelay
    decreases late
  {
    if early < late {
      CappedGrows(retry, early, late - 1);
      CappedStep(retry, late - 1);
    } else {
      CappedStep(retry, late);
    }
  }

  /** A product that is at least its share of the cap. */
  lemma ReachesCap(base: real, cap: real, p: real, need: real, y: real, n: real)
    requires base > 0.0 && y > 0.0 && n >= need
    requires need == cap / base / y
    requires p >= 1.0 + n * y
    ensures base * p >= cap
  {
    var ratio := cap / base;
    assert need * y == ratio && base * ratio == cap;
    Scale(need, n, y);
    Scale(ratio, p, base);
  }

  /** With a real base and a real multiplier the cap is reached and never left again. */
  lemma CapIsReached(retry: RetryPolicy) returns (from: nat)
    requires Sensible(retry) && retry.baseDelay > 0.0 && retry.multiplier > 1.0
    ensures from >= 1
    ensures forall attempt: nat | attempt >= from :: Capped(retry, attempt) == retry.maxDelay
  {
    var need := retry.maxDelay / retry.baseDelay / (retry.multiplier - 1.0);
    var enough: nat := if need < 0.0 then 0 else need.Floor + 1;
    from := enough + 1;
    forall attempt: nat | attempt >= from ensures Capped(retry, attempt) == retry.maxDelay {
      PowAtLeastLinear(retry.multiplier, attempt - 1);
      ReachesCap(retry.baseDelay, retry.maxDelay, Pow(retry.multiplier, attempt - 1), need,
                 retry.multiplier - 1.0, (attempt - 1) as real);
    }
  }

  /** Within the jitter fraction of the capped delay. */
  predicate Near(delay: real, capped: real, jitter: real) {
    capped * (1.0 - jitter) <= delay <= capped * (1.0 + jitter)
  }

  lemma Spread(c: real, cap: real, j: real, draw: real)
    requires 0.0 <= c <= cap && 0.0 <= j <= 1.0 && 1.0 - j <= draw <= 1.0 + j
    ensures Near(c * draw, c, j) && 0.0 <= c * draw <= cap * (1.0 + j)
  {
    Scale(1.0 - j, draw, c);
    Scale(draw, 1.0 + j, c);
    Scale(c, cap, 1.0 + j);
    assert 0.0 <= c * draw by { Scale(0.0, draw, c); }
    assert c * draw <= c * (1.0 + j) <= cap * (1.0 + j);
  }

  lemma JitteredIsNear(retry: RetryPolicy, c: real, draw: real)
    requires Sensible(retry) && DrawnFrom(retry, draw) && 0.0 <= c <= retry.maxDelay
    ensures Jittered(retry, c, draw) == c * draw && Near(Jittered(retry, c, draw), c, retry.jitter)
    ensures 0.0 <= Jittered(retry, c, draw) <= retry.maxDelay * (1.0 + retry.jitter)
  {
    Spread(c, retry.maxDelay, retry.jitter, draw);
    if retry.jitter == 0.0 {
      assert draw == 1.0;
    }
    assert Jittered(retry, c, draw) == c * draw;
  }

  /** Jitter stays within its fraction of the capped delay, whatever is drawn. */
  lemma JitterStaysInRange(retry: RetryPolicy, attempt: nat, draw: real)
    requires Sensible(retry) && attempt >= 1 && DrawnFrom(retry, draw)
    ensures BackoffDelay(retry, attempt, draw) == Capped(retry, attempt) * draw
    ensures Near(BackoffDelay(retry, attempt, draw), Capped(retry, attempt), retry.jitter)
    ensures 0.0 <= BackoffDelay(retry, attempt, draw) <= retry.maxDelay * (1.0 + retry.jitter)
  {
    CappedStep(retry, attempt);
    JitteredIsNear(retry, Capped(retry, attempt), draw);
  }

  /** Jitter is applied after the cap, so a delay can exceed max_delay. */
  lemma JitterExceedsCapExample(retry: RetryPolicy)
    requires retry.baseDelay == 1.0 && retry.maxDelay == 1.0 && retry.multiplier == 1.0 && retry.jitter == 0.5
    ensures Sensible(retry) && DrawnFrom(retry, 1.5) && BackoffDelay(retry, 1, 1.5) > retry.maxDelay
  {
    assert Pow(retry.multiplier, 0) == 1.0;
  }

  lemma JitteredAtMost(retry: RetryPolicy, c: real, draw: real, most: real)
    requires Sensible(retry) && DrawnFrom(retry, draw) && c >= 0.0 && c * (1.0 + retry.jitter) <= most
    ensures Jittered(retry, c, draw) <= most
  {
    Scale(draw, 1.0 + retry.jitter, c);
    Scale(0.0, 1.0 + retry.jitter, c);
    Scale(1.0, 1.0 + retry.jitter, c);
  }

  lemma JitteredAtTop(retry: RetryPolicy, c: real)
    requires Sensible(retry) && c >= 0.0
    ensures Jittered(retry, c, 1.0 + retry.jitter) == c * (1.0 + retry.jitter)
  {
    Scale(0.0, 1.0 + retry.jitter, c);
  }

  /** max_delay bounds every jittered delay of an attempt exactly when the jitter has room
      between the capped delay and the cap. */
  lemma CapHoldsIff(retry: RetryPolicy, attempt: nat)
    requires Sensible(retry) && attempt >= 1
    ensures (forall draw | DrawnFrom(retry, draw) :: BackoffDelay(retry, attempt, draw) <= retry.maxDelay)
       <==> Capped(retry, attempt) * (1.0 + retry.jitter) <= retry.maxDelay
  {
    CappedStep(retry, attempt);
    var c := Capped(retry, attempt);
    if c * (1.0 + retry.jitter) <= retry.maxDelay {
      forall draw | DrawnFrom(retry, draw) ensures BackoffDelay(retry, attempt, draw) <= retry.maxDelay {
        JitteredAtMost(retry, c, draw, retry.maxDelay);
      }
    } else {
      JitteredAtTop(retry, c);
      assert DrawnFrom(retry, 1.0 + retry.jitter);
      assert BackoffDelay(retry, attempt, 1.0 + retry.jitter) > retry.maxDelay;
    }
  }
}
