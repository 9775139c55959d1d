/**
  Execution policy: which failures are retried, and how long to wait.
 */
module Policy {
  import opened Wrappers
  import opened Exceptions

  datatype ExecutionPolicy = ExecutionPolicy(
    timeout: Option<real>,
    maxRetries: int,
    backoffBase: real,
    backoffFactor: real,
    backoffMax: real,
    jitter: bool,
    retryOn: Exc -> bool,
    noRetryOn: Exc -> bool)

  function Min(a: real, b: real): real {
    if a <= b then a else b
  }

  function Pow(x: real, n: nat): real {
    if n == 0 then 1.0 else Pow(x, n - 1) * x
  }

  function Uncapped(p: ExecutionPolicy, n: nat): real {
    p.backoffBase * Pow(p.backoffFactor, n)
  }

  // The wait before the next attempt, without jitter.
  function PlainDelay(p: ExecutionPolicy, attempt: nat): real {
    Min(Uncapped(p, attempt), p.backoffMax)
  }

  // `draw` is the random number: uniform(0, b) is draw * b for a draw between 0 and 1.
  function BackoffDelay(p: ExecutionPolicy, attempt: nat, draw: real): real {
    var delay := PlainDelay(p, attempt);
    if p.jitter then delay + draw * Min(delay, 1.0) else delay
  }

  predicate ShouldRetry(p: ExecutionPolicy, e: Exc, attempt: nat) {
    attempt < p.maxRetries && (e.cls == Connection || (!p.noRetryOn(e) && p.retryOn(e)))
  }

  // Settings under which every delay is a duration.
  predicate Sane(p: ExecutionPolicy) {
    p.backoffBase >= 0.0 && p.backoffFactor >= 0.0 && p.backoffMax >= 0.0
  }

  lemma {:induction false} PowIsNonNegative(x: real, n: nat)
    requires x >= 0.0
    ensures Pow(x, n) >= 0.0
  {
    if n > 0 {
      PowIsNonNegative(x, n - 1);
    }
  }

  lemma Monotone(a: real, b: real, x: real)
    requires a <= b && x >= 0.0
    ensures a * x <= b * x
  {}

  lemma Grow(a: real, x: real)
    requires a >= 0.0 && x >= 1.0
    ensures a * x >= a
    ensures a > 0.0 && x > 1.0 ==> a * x > a
  {}

  lemma Associate(a: real, b: real, c: real)
    ensures a * (b * c) == (a * b) * c
  {}

  lemma BernoulliStep(q: real, m: real, d: real)
    requires m >= 0.0 && d >= 0.0 && q >= 1.0 + m * d
    ensures q * (1.0 + d) >= 1.0 + (m + 1.0) * d
  {
    Monotone(0.0, m, d);
    Monotone(1.0, q, d);
    assert q * (1.0 + d) == q + q * d;
    assert (m + 1.0) * d == m * d + d;
  }

  lemma {:induction false} Bernoulli(x: real, n: nat)
    requires x >= 1.0
    ensures Pow(x, n) >= 1.0 + n as real * (x - 1.0)
  {
    if n > 0 {
      Bernoulli(x, n - 1);
      BernoulliStep(Pow(x, n - 1), (n - 1) as real, x - 1.0);
    }
  }

  // A jittered wait lies between the plain delay and one second or the delay more, and the
  // plain delay never exceeds the cap.
  lemma DelayBounds(p: ExecutionPolicy, attempt: nat, draw: real)
    requires Sane(p) && 0.0 <= draw <= 1.0
    ensures 0.0 <= PlainDelay(p, attempt) <= p.backoffMax
    ensures PlainDelay(p, attempt) <= BackoffDelay(p, attempt, draw)
    ensures BackoffDelay(p, attempt, draw) <= PlainDelay(p, attempt) + Min(PlainDelay(p, attempt), 1.0)
  {
    PowIsNonNegative(p.backoffFactor, attempt);
    Monotone(0.0, p.backoffBase, Pow(p.backoffFactor, attempt));
    var spread := Min(PlainDelay(p, attempt), 1.0);
    assert spread >= 0.0;
    Monotone(0.0, draw, spread);
    Monotone(draw, 1.0, spread);
    assert 0.0 <= draw * spread <= spread;
    assert BackoffDelay(p, attempt, draw) == PlainDelay(p, attempt) + if p.jitter then draw * spread else 0.0;
  }

  // ---------------------------------------------------------------------------
  // Without jitter

  ghost predicate NonDecreasing(p: ExecutionPolicy) {
    forall n: nat :: PlainDelay(p, n) <= PlainDelay(p, n + 1)
  }

  // With a factor of at least 1 the plain delays never shrink, exactly when the base is not
  // negative or the factor is 1. The waits add jitter to them; see `WaitsNeverShrinkIff`.
  lemma PlainDelayNonDecreasingIff(p: ExecutionPolicy)
    requires p.backoffFactor >= 1.0
    ensures NonDecreasing(p) <==> p.backoffBase >= 0.0 || p.backoffFactor == 1.0
  {
    if p.backoffBase >= 0.0 || p.backoffFactor == 1.0 {
      forall n: nat
        ensures PlainDelay(p, n) <= PlainDelay(p, n + 1)
      {
        GrowingDelay(p, n);
      }
    } else {
      var n := ShrinkingDelay(p);
      assert PlainDelay(p, n) > PlainDelay(p, n + 1);
    }
  }

  lemma GrowingDelay(p: ExecutionPolicy, n: nat)
    requires p.backoffFactor >= 1.0 && (p.backoffBase >= 0.0 || p.backoffFactor == 1.0)
    ensures PlainDelay(p, n) <= PlainDelay(p, n + 1)
  {
    var q := Pow(p.backoffFactor, n);
    Associate(p.backoffBase, q, p.backoffFactor);
    if p.backoffBase >= 0.0 {
      PowIsNonNegative(p.backoffFactor, n);
      Monotone(0.0, p.backoffBase, q);
      Grow(p.backoffBase * q, p.backoffFactor);
    }
  }

  lemma BelowCap(cap: real, base: real, q: real)
    requires base < 0.0 && q >= cap / base
    ensures base * q <= cap
  {
    var r := cap / base;
    assert r * base == cap;
    Monotone(r, q, -base);
  }

  // Enough growth steps take a power of `x` past any bound.
  lemma PowPasses(x: real, bound: real) returns (n: nat)
    requires x > 1.0
    ensures Pow(x, n) >= bound && Pow(x, n) >= 1.0
  {
    var steps := (bound - 1.0) / (x - 1.0);
    n := if steps.Floor + 1 >= 0 then steps.Floor + 1 else 0;
    Bernoulli(x, n);
    Monotone(steps, n as real, x - 1.0);
    Monotone(0.0, n as real, x - 1.0);
    assert steps * (x - 1.0) == bound - 1.0;
  }

  lemma UncappedStep(p: ExecutionPolicy, n: nat)
    ensures Uncapped(p, n + 1) == Uncapped(p, n) * p.backoffFactor
  {
    Associate(p.backoffBase, Pow(p.backoffFactor, n), p.backoffFactor);
  }

  lemma NegativeAndBelowCap(p: ExecutionPolicy) returns (n: nat)
    requires p.backoffFactor > 1.0 && p.backoffBase < 0.0
    ensures Uncapped(p, n) <= p.backoffMax && Uncapped(p, n) < 0.0
  {
    n := PowPasses(p.backoffFactor, p.backoffMax / p.backoffBase);
    BelowCap(p.backoffMax, p.backoffBase, Pow(p.backoffFactor, n));
    NegativeProduct(p.backoffBase, Pow(p.backoffFactor, n));
  }

  // With a negative base and a growing factor, some delay below the cap is followed by a smaller one.
  lemma ShrinkingDelay(p: ExecutionPolicy) returns (n: nat)
    requires p.backoffFactor > 1.0 && p.backoffBase < 0.0
    ensures PlainDelay(p, n) > PlainDelay(p, n + 1)
  {
    n := NegativeAndBelowCap(p);
    UncappedStep(p, n);
    NegativeShrinks(Uncapped(p, n), p.backoffFactor);
  }

  lemma NegativeProduct(base: real, q: real)
    requires base < 0.0 && q >= 1.0
    ensures base * q < 0.0
  {
    Monotone(1.0, q, -base);
  }

  lemma NegativeShrinks(a: real, x: real)
    requires a < 0.0 && x > 1.0
    ensures a * x < a
  {
    Grow(-a, x);
  }

  // A factor below 1 takes the uncapped delay below any bound.
  lemma PowVanishes(x: real, bound: real) returns (n: nat)
    requires 0.0 <= x < 1.0 && bound > 0.0
    ensures 0.0 <= Pow(x, n) < bound
  {
    if x == 0.0 {
      n := 1;
    } else {
      n := PowPasses(1.0 / x, 1.0 / bound + 1.0);
      InversePowers(x, n);
      PowIsNonNegative(x, n);
      BelowInverse(Pow(x, n), Pow(1.0 / x, n), bound);
    }
  }

  lemma {:induction false} InversePowers(x: real, n: nat)
    requires x > 0.0
    ensures Pow(x, n) * Pow(1.0 / x, n) == 1.0
  {
    if n > 0 {
      InversePowers(x, n - 1);
      var a, b, y := Pow(x, n - 1), Pow(1.0 / x, n - 1), 1.0 / x;
      assert x * y == 1.0;
      assert (a * x) * (b * y) == (a * b) * (x * y);
    }
  }

  lemma BelowInverse(a: real, b: real, bound: real)
    requires a >= 0.0 && bound > 0.0 && a * b == 1.0 && b >= 1.0 / bound + 1.0
    ensures a < bound
  {
    var r := 1.0 / bound;
    assert r * bound == 1.0;
    Monotone(r + 1.0, b, a);
    assert (r + 1.0) * a == r * a + a;
    assert a != 0.0;
    PositiveProduct(bound, 1.0 - r * a);
    assert bound * (1.0 - r * a) == bound - (r * bound) * a;
  }

  lemma {:induction false} PowAtMostOne(x: real, n: nat)
    requires 0.0 <= x <= 1.0
    ensures 0.0 <= Pow(x, n) <= 1.0
  {
    if n > 0 {
      PowAtMostOne(x, n - 1);
      ProductAtMostOne(Pow(x, n - 1), x);
    }
  }

  lemma ProductAtMostOne(y: real, x: real)
    requires 0.0 <= y <= 1.0 && 0.0 <= x <= 1.0
    ensures 0.0 <= y * x <= 1.0
  {
    Monotone(0.0, y, x);
    Monotone(y, 1.0, x);
    assert y * x <= x;
  }

  // ---------------------------------------------------------------------------
  // The waits, with jitter

  // Whatever the draws, a wait is never shorter than the one before it.
  ghost predicate WaitsNeverShrink(p: ExecutionPolicy) {
    forall n: nat, a: real, b: real :: 0.0 <= a <= 1.0 && 0.0 <= b <= 1.0 ==> NoShorter(p, n, a, b)
  }

  predicate NoShorter(p: ExecutionPolicy, n: nat, a: real, b: real) {
    BackoffDelay(p, n, a) <= BackoffDelay(p, n + 1, b)
  }

  lemma WaitWithoutDraw(p: ExecutionPolicy, n: nat)
    ensures BackoffDelay(p, n, 0.0) == PlainDelay(p, n)
    ensures BackoffDelay(p, n, 1.0) == PlainDelay(p, n) + if p.jitter then Min(PlainDelay(p, n), 1.0) else 0.0
  {}

  lemma PositiveDelay(p: ExecutionPolicy, n: nat)
    requires p.backoffBase > 0.0 && p.backoffMax > 0.0 && p.backoffFactor > 0.0
    ensures PlainDelay(p, n) > 0.0
  {
    InversePowers(p.backoffFactor, n);
    PowIsNonNegative(p.backoffFactor, n);
    PositiveProduct(p.backoffBase, Pow(p.backoffFactor, n));
  }

  lemma PositiveProduct(a: real, b: real)
    requires a > 0.0 && b >= 0.0 && b != 0.0
    ensures a * b > 0.0
  {}

  // With a factor of at least 1 some delay is followed by no larger one: the factor is 1, or the
  // cap is reached.
  lemma SettledDelay(p: ExecutionPolicy) returns (n: nat)
    requires p.backoffBase > 0.0 && p.backoffFactor >= 1.0
    ensures PlainDelay(p, n + 1) == PlainDelay(p, n)
    ensures p.backoffFactor > 1.0 ==> PlainDelay(p, n) == p.backoffMax
  {
    n := 0;
    if p.backoffFactor > 1.0 {
      n := PowPasses(p.backoffFactor, p.backoffMax / p.backoffBase);
      var q := Pow(p.backoffFactor, n);
      Monotone(p.backoffMax / p.backoffBase, q, p.backoffBase);
      GrowingDelay(p, n);
    }
  }

  // With a factor below 1 some delay is smaller than the first.
  lemma VanishingDelay(p: ExecutionPolicy) returns (n: nat)
    requires p.backoffBase > 0.0 && p.backoffMax > 0.0 && 0.0 <= p.backoffFactor < 1.0
    ensures PlainDelay(p, n) < PlainDelay(p, 0)
  {
    var first := PlainDelay(p, 0);
    n := PowVanishes(p.backoffFactor, first / p.backoffBase);
    StrictlyBelow(p.backoffBase, Pow(p.backoffFactor, n), first);
  }

  lemma StrictlyBelow(base: real, q: real, bound: real)
    requires base > 0.0 && q < bound / base
    ensures base * q < bound
  {
    var r := bound / base;
    assert r * base == bound;
    PositiveProduct(base, r - q);
    assert base * (r - q) == bound - base * q;
  }

  lemma {:induction false} NoLaterDelayIsSmaller(p: ExecutionPolicy, n: nat)
    requires WaitsNeverShrink(p)
    ensures PlainDelay(p, n) >= PlainDelay(p, 0)
  {
    if n > 0 {
      NoLaterDelayIsSmaller(p, n - 1);
      WaitWithoutDraw(p, n - 1);
      WaitWithoutDraw(p, n);
      assert NoShorter(p, n - 1, 0.0, 0.0);
    }
  }

  lemma {:induction false} ZeroDelays(p: ExecutionPolicy, n: nat, draw: real)
    requires Sane(p) && 0.0 <= draw <= 1.0 && (p.backoffBase == 0.0 || p.backoffMax == 0.0)
    ensures BackoffDelay(p, n, draw) == 0.0
  {
    DelayBounds(p, n, draw);
    if p.backoffBase == 0.0 {
      assert Uncapped(p, n) == 0.0;
    }
  }

  // For every sane policy: the waits never shrink if and only if they are all zero, or there is no
  // jitter and the factor is at least 1.
  lemma WaitsNeverShrinkIff(p: ExecutionPolicy)
    requires Sane(p)
    ensures WaitsNeverShrink(p) <==>
      p.backoffBase == 0.0 || p.backoffMax == 0.0 || (!p.jitter && p.backoffFactor >= 1.0)
  {
    if p.backoffBase == 0.0 || p.backoffMax == 0.0 {
      forall n: nat, a: real, b: real | 0.0 <= a <= 1.0 && 0.0 <= b <= 1.0
        ensures NoShorter(p, n, a, b)
      {
        ZeroDelays(p, n, a);
        ZeroDelays(p, n + 1, b);
      }
    } else if p.backoffFactor < 1.0 {
      var n := VanishingDelay(p);
      if WaitsNeverShrink(p) {
        NoLaterDelayIsSmaller(p, n);
      }
    } else if p.jitter {
      var n := SettledDelay(p);
      PositiveDelay(p, n);
      WaitWithoutDraw(p, n);
      WaitWithoutDraw(p, n + 1);
      assert !NoShorter(p, n, 1.0, 0.0);
    } else {
      forall n: nat, a: real, b: real | 0.0 <= a <= 1.0 && 0.0 <= b <= 1.0
        ensures NoShorter(p, n, a, b)
      {
        GrowingDelay(p, n);
      }
    }
  }

  // Whatever the draws, no wait is longer than the configured maximum.
  ghost predicate WaitsWithinMax(p: ExecutionPolicy) {
    forall n: nat, a: real :: 0.0 <= a <= 1.0 ==> BackoffDelay(p, n, a) <= p.backoffMax
  }

  lemma UncappedAtMostBase(p: ExecutionPolicy, n: nat)
    requires Sane(p) && p.backoffFactor <= 1.0
    ensures Uncapped(p, n) <= p.backoffBase
  {
    var q := Pow(p.backoffFactor, n);
    PowAtMostOne(p.backoffFactor, n);
    Monotone(q, 1.0, p.backoffBase);
    assert Uncapped(p, n) == q * p.backoffBase;
  }

  // For every sane policy: the waits stay within the maximum if and only if they are all zero, or
  // there is no jitter, or the delays do not grow and the first leaves room for its jitter.
  lemma WaitsWithinMaxIff(p: ExecutionPolicy)
    requires Sane(p)
    ensures WaitsWithinMax(p) <==>
      || p.backoffBase == 0.0 || p.backoffMax == 0.0 || !p.jitter
      || (p.backoffFactor <= 1.0 && p.backoffBase + Min(p.backoffBase, 1.0) <= p.backoffMax)
  {
    if p.backoffBase == 0.0 || p.backoffMax == 0.0 {
      forall n: nat, a: real | 0.0 <= a <= 1.0
        ensures BackoffDelay(p, n, a) <= p.backoffMax
      {
        ZeroDelays(p, n, a);
      }
    } else if !p.jitter {
      forall n: nat, a: real | 0.0 <= a <= 1.0
        ensures BackoffDelay(p, n, a) <= p.backoffMax
      {
        DelayBounds(p, n, a);
      }
    } else if p.backoffFactor > 1.0 {
      var n := SettledDelay(p);
      WaitWithoutDraw(p, n);
      assert BackoffDelay(p, n, 1.0) > p.backoffMax;
    } else {
      WaitWithoutDraw(p, 0);
      assert Uncapped(p, 0) == p.backoffBase;
      if p.backoffBase + Min(p.backoffBase, 1.0) <= p.backoffMax {
        forall n: nat, a: real | 0.0 <= a <= 1.0
          ensures BackoffDelay(p, n, a) <= p.backoffMax
        {
          DelayBounds(p, n, a);
          UncappedAtMostBase(p, n);
          assert PlainDelay(p, n) + Min(PlainDelay(p, n), 1.0) <= p.backoffBase + Min(p.backoffBase, 1.0);
        }
      } else {
        assert BackoffDelay(p, 0, 1.0) > p.backoffMax;
      }
    }
  }

  // The default settings: a full draw makes the wait before attempt 7 one second longer than the
  // maximum, and longer than the next wait can be.
  lemma DefaultWaitsShrink(p: ExecutionPolicy)
    requires p.backoffBase == 0.5 && p.backoffFactor == 2.0 && p.backoffMax == 30.0 && p.jitter
    ensures NonDecreasing(p)
    ensures BackoffDelay(p, 6, 1.0) == 31.0 && BackoffDelay(p, 7, 0.0) == 30.0
    ensures !WaitsNeverShrink(p) && !WaitsWithinMax(p)
  {
    PlainDelayNonDecreasingIff(p);
    assert Pow(2.0, 3) == 8.0;
    assert Pow(2.0, 6) == 64.0;
    assert Pow(2.0, 7) == 128.0;
    WaitWithoutDraw(p, 6);
    WaitWithoutDraw(p, 7);
    assert !NoShorter(p, 6, 1.0, 0.0);
  }

  // ---------------------------------------------------------------------------
  // The waits a run can make: those of the attempts below max_retries

  // The longest wait of an attempt is not longer than the shortest of the next.
  predicate Steady(p: ExecutionPolicy, n: nat) {
    BackoffDelay(p, n, 1.0) <= PlainDelay(p, n + 1)
  }

  // The longest wait of an attempt stays within the maximum.
  predicate Fits(p: ExecutionPolicy, n: nat) {
    BackoffDelay(p, n, 1.0) <= p.backoffMax
  }

  ghost predicate RunWaitsNeverShrink(p: ExecutionPolicy) {
    forall n: nat, a: real, b: real :: n + 1 < p.maxRetries && 0.0 <= a <= 1.0 && 0.0 <= b <= 1.0 ==>
      NoShorter(p, n, a, b)
  }

  ghost predicate RunWaitsWithinMax(p: ExecutionPolicy) {
    forall n: nat, a: real :: n < p.maxRetries && 0.0 <= a <= 1.0 ==> BackoffDelay(p, n, a) <= p.backoffMax
  }

  lemma FullDrawIsLongest(p: ExecutionPolicy, n: nat, a: real)
    requires Sane(p) && 0.0 <= a <= 1.0
    ensures PlainDelay(p, n) <= BackoffDelay(p, n, a) <= BackoffDelay(p, n, 1.0)
  {
    DelayBounds(p, n, a);
    WaitWithoutDraw(p, n);
    if !p.jitter {
      assert BackoffDelay(p, n, a) == PlainDelay(p, n);
    }
  }

  lemma UncappedIsNonNegative(p: ExecutionPolicy, n: nat)
    requires Sane(p)
    ensures Uncapped(p, n) >= 0.0
    ensures p.backoffBase > 0.0 && p.backoffFactor > 0.0 ==> Uncapped(p, n) > 0.0
  {
    var q := Pow(p.backoffFactor, n);
    PowIsNonNegative(p.backoffFactor, n);
    Monotone(0.0, p.backoffBase, q);
    if p.backoffBase > 0.0 && p.backoffFactor > 0.0 {
      InversePowers(p.backoffFactor, n);
      PositiveProduct(p.backoffBase, q);
    }
  }

  lemma {:induction false} UncappedGrows(p: ExecutionPolicy, n: nat, m: nat)
    requires Sane(p) && p.backoffFactor >= 1.0 && n <= m
    ensures Uncapped(p, n) <= Uncapped(p, m)
    decreases m - n
  {
    if n < m {
      OneStepGrows(p, n);
      UncappedGrows(p, n + 1, m);
    }
  }

  lemma OneStepGrows(p: ExecutionPolicy, n: nat)
    requires Sane(p) && p.backoffFactor >= 1.0
    ensures Uncapped(p, n) <= Uncapped(p, n + 1)
  {
    UncappedStep(p, n);
    UncappedIsNonNegative(p, n);
    Grow(Uncapped(p, n), p.backoffFactor);
  }

  lemma OneStepFalls(p: ExecutionPolicy, n: nat)
    requires Sane(p) && p.backoffFactor <= 1.0
    ensures Uncapped(p, n) >= Uncapped(p, n + 1)
  {
    UncappedStep(p, n);
    UncappedIsNonNegative(p, n);
    Shrink(Uncapped(p, n), p.backoffFactor);
  }

  lemma {:induction false} UncappedFalls(p: ExecutionPolicy, n: nat, m: nat)
    requires Sane(p) && p.backoffFactor <= 1.0 && n <= m
    ensures Uncapped(p, n) >= Uncapped(p, m)
    decreases m - n
  {
    if n < m {
      OneStepFalls(p, n);
      UncappedFalls(p, n + 1, m);
    }
  }

  lemma Shrink(a: real, x: real)
    requires a >= 0.0 && 0.0 <= x <= 1.0
    ensures a * x <= a
    ensures a > 0.0 && x < 1.0 ==> a * x < a
  {
    Monotone(x, 1.0, a);
    if a > 0.0 && x < 1.0 {
      PositiveProduct(a, 1.0 - x);
      assert a * (1.0 - x) == a - a * x;
    }
  }

  // A wait that is positive and falls to no less was capped before and after.
  lemma CappedNext(p: ExecutionPolicy, n: nat)
    requires Sane(p) && p.backoffFactor < 1.0 && Uncapped(p, n) > 0.0
    requires PlainDelay(p, n) <= PlainDelay(p, n + 1)
    ensures Uncapped(p, n + 1) >= p.backoffMax
  {
    UncappedStep(p, n);
    Shrink(Uncapped(p, n), p.backoffFactor);
  }

  lemma FallingSteady(p: ExecutionPolicy, last: nat, n: nat)
    requires Sane(p) && p.backoffBase > 0.0 && p.backoffMax > 0.0 && p.backoffFactor < 1.0 && !p.jitter
    requires Steady(p, 0) && Steady(p, last) && n <= last
    ensures Steady(p, n)
  {
    WaitWithoutDraw(p, 0);
    WaitWithoutDraw(p, last);
    WaitWithoutDraw(p, n);
    assert Uncapped(p, 0) == p.backoffBase;
    CappedNext(p, 0);
    UncappedStep(p, 0);
    assert p.backoffFactor != 0.0;
    UncappedIsNonNegative(p, last);
    CappedNext(p, last);
    UncappedFalls(p, n, last + 1);
    UncappedFalls(p, n + 1, last + 1);
  }

  lemma SteadyFallMeansNoJitter(p: ExecutionPolicy)
    requires Sane(p) && p.backoffBase > 0.0 && p.backoffMax > 0.0 && p.backoffFactor <= 1.0 && Steady(p, 0)
    ensures !p.jitter
  {
    WaitWithoutDraw(p, 0);
    assert Uncapped(p, 0) == p.backoffBase;
    UncappedFalls(p, 0, 1);
  }

  lemma GrowthSplits(u: real, x: real)
    ensures u * x == u + u * (x - 1.0)
  {}

  // Growth that covers the jitter of one delay covers that of every longer one.
  lemma GrowthKeepsRoom(u0: real, u: real, x: real)
    requires 0.0 < u0 <= u && x > 1.0 && u0 + Min(u0, 1.0) <= u0 * x
    ensures u + Min(u, 1.0) <= u * x
  {
    GrowthSplits(u0, x);
    GrowthSplits(u, x);
    RoomGrows(u0, u, x - 1.0);
  }

  lemma RoomGrows(u0: real, u: real, d: real)
    requires 0.0 < u0 <= u && d > 0.0 && Min(u0, 1.0) <= u0 * d
    ensures Min(u, 1.0) <= u * d
  {
    if d >= 1.0 {
      Monotone(1.0, d, u);
    } else {
      Shrink(u0, d);
      Monotone(u0, u, d);
    }
  }

  // The growth from attempt `n` on covers its jitter.
  lemma RoomAt(p: ExecutionPolicy, n: nat)
    requires Sane(p) && p.backoffBase > 0.0 && p.backoffFactor > 1.0
    requires p.backoffBase + Min(p.backoffBase, 1.0) <= p.backoffBase * p.backoffFactor
    ensures Uncapped(p, n) + Min(Uncapped(p, n), 1.0) <= Uncapped(p, n + 1)
  {
    UncappedGrows(p, 0, n);
    FirstIsBase(p);
    GrowthKeepsRoom(p.backoffBase, Uncapped(p, n), p.backoffFactor);
    UncappedStep(p, n);
  }

  lemma FirstIsBase(p: ExecutionPolicy)
    ensures Uncapped(p, 0) == p.backoffBase
  {}

  lemma SteadyBelowMax(p: ExecutionPolicy, n: nat)
    requires Uncapped(p, n) <= p.backoffMax && Uncapped(p, n + 1) <= p.backoffMax
    requires p.jitter && Uncapped(p, n) + Min(Uncapped(p, n), 1.0) <= Uncapped(p, n + 1)
    ensures Steady(p, n)
  {
    WaitWithoutDraw(p, n);
  }

  lemma GrowingSteady(p: ExecutionPolicy, last: nat, n: nat)
    requires Sane(p) && p.backoffBase > 0.0 && p.backoffMax > 0.0 && p.backoffFactor > 1.0
    requires Steady(p, 0) && Steady(p, last) && n < last
    ensures Steady(p, n)
  {
    if p.jitter {
      BelowMaxUpTo(p, last, n);
      BelowMaxUpTo(p, last, n + 1);
      BelowMaxUpTo(p, last, 1);
      FirstGrowthCovers(p);
      RoomAt(p, n);
      SteadyBelowMax(p, n);
    } else {
      WaitWithoutDraw(p, n);
      GrowingDelay(p, n);
    }
  }

  // Room for the jitter of a delay below the next one means that it was not capped.
  lemma BelowMaxUpTo(p: ExecutionPolicy, last: nat, n: nat)
    requires Sane(p) && p.backoffBase > 0.0 && p.backoffMax > 0.0 && p.backoffFactor > 1.0 && p.jitter
    requires Steady(p, last) && n <= last
    ensures Uncapped(p, n) < p.backoffMax
  {
    WaitWithoutDraw(p, last);
    UncappedIsNonNegative(p, last);
    UncappedGrows(p, n, last);
  }

  lemma FirstGrowthCovers(p: ExecutionPolicy)
    requires Sane(p) && p.backoffFactor > 1.0 && p.jitter && Steady(p, 0) && Uncapped(p, 1) < p.backoffMax
    ensures p.backoffBase + Min(p.backoffBase, 1.0) <= p.backoffBase * p.backoffFactor
  {
    WaitWithoutDraw(p, 0);
    FirstIsBase(p);
    UncappedGrows(p, 0, 1);
    UncappedStep(p, 0);
  }

  // Two attempts decide for all between them.
  lemma SteadyBetween(p: ExecutionPolicy, last: nat, n: nat)
    requires Sane(p) && Steady(p, 0) && Steady(p, last) && n <= last
    ensures Steady(p, n)
  {
    if p.backoffBase == 0.0 || p.backoffMax == 0.0 {
      ZeroDelays(p, n, 1.0);
      DelayBounds(p, n + 1, 0.0);
    } else if p.backoffFactor > 1.0 {
      if n < last {
        GrowingSteady(p, last, n);
      }
    } else {
      SteadyFallMeansNoJitter(p);
      if p.backoffFactor < 1.0 {
        FallingSteady(p, last, n);
      } else {
        WaitWithoutDraw(p, n);
        UncappedStep(p, n);
      }
    }
  }

  // Over the waits of a run the condition is on two of them: for every sane policy, no wait of a run
  // is shorter than the one before it, whatever the draws, if and only if there are fewer than two,
  // or the first and the last but one are steady.
  lemma RunWaitsNeverShrinkIff(p: ExecutionPolicy)
    requires Sane(p)
    ensures RunWaitsNeverShrink(p) <==> p.maxRetries < 2 || (Steady(p, 0) && Steady(p, p.maxRetries - 2))
  {
    if p.maxRetries >= 2 {
      var last := p.maxRetries - 2;
      if RunWaitsNeverShrink(p) {
        WaitWithoutDraw(p, 1);
        WaitWithoutDraw(p, last + 1);
        assert NoShorter(p, 0, 1.0, 0.0) && NoShorter(p, last, 1.0, 0.0);
      }
      if Steady(p, 0) && Steady(p, last) {
        forall n: nat, a: real, b: real | n + 1 < p.maxRetries && 0.0 <= a <= 1.0 && 0.0 <= b <= 1.0
          ensures NoShorter(p, n, a, b)
        {
          SteadyBetween(p, last, n);
          FullDrawIsLongest(p, n, a);
          FullDrawIsLongest(p, n + 1, b);
        }
      }
    }
  }

  lemma LongerDelayLongerWait(p: ExecutionPolicy, n: nat, m: nat)
    requires PlainDelay(p, n) <= PlainDelay(p, m)
    ensures BackoffDelay(p, n, 1.0) <= BackoffDelay(p, m, 1.0)
  {
    WaitWithoutDraw(p, n);
    WaitWithoutDraw(p, m);
  }

  // For every sane policy, the waits of a run stay within the maximum, whatever the draws, if and
  // only if there are none, or the first and the last of them do with a full draw.
  lemma RunWaitsWithinMaxIff(p: ExecutionPolicy)
    requires Sane(p)
    ensures RunWaitsWithinMax(p) <==> p.maxRetries < 1 || (Fits(p, 0) && Fits(p, p.maxRetries - 1))
  {
    if p.maxRetries >= 1 {
      var last := p.maxRetries - 1;
      if RunWaitsWithinMax(p) {
        assert BackoffDelay(p, 0, 1.0) <= p.backoffMax && BackoffDelay(p, last, 1.0) <= p.backoffMax;
      }
      if Fits(p, 0) && Fits(p, last) {
        forall n: nat, a: real | n < p.maxRetries && 0.0 <= a <= 1.0
          ensures BackoffDelay(p, n, a) <= p.backoffMax
        {
          FullDrawIsLongest(p, n, a);
          if p.backoffFactor >= 1.0 {
            UncappedGrows(p, n, last);
            LongerDelayLongerWait(p, n, last);
          } else {
            UncappedFalls(p, 0, n);
            LongerDelayLongerWait(p, n, 0);
          }
        }
      }
    }
  }

  // The default backoff: up to 7 retries no wait shrinks, and up to 6 none exceeds the maximum.
  lemma DefaultRuns(p: ExecutionPolicy)
    requires p.backoffBase == 0.5 && p.backoffFactor == 2.0 && p.backoffMax == 30.0 && p.jitter
    ensures RunWaitsNeverShrink(p) <==> p.maxRetries <= 7
    ensures RunWaitsWithinMax(p) <==> p.maxRetries <= 6
  {
    RunWaitsNeverShrinkIff(p);
    RunWaitsWithinMaxIff(p);
    if p.maxRetries >= 1 {
      DefaultDelays(p, p.maxRetries - 1);
    }
    if p.maxRetries >= 2 {
      DefaultDelays(p, p.maxRetries - 2);
    }
    DefaultDelays(p, 0);
  }

  lemma DefaultDelays(p: ExecutionPolicy, n: nat)
    requires p.backoffBase == 0.5 && p.backoffFactor == 2.0 && p.backoffMax == 30.0 && p.jitter
    ensures Steady(p, n) <==> n <= 5
    ensures Fits(p, n) <==> n <= 5
  {
    assert Pow(2.0, 3) == 8.0;
    assert Pow(2.0, 6) == 64.0;
    WaitWithoutDraw(p, n);
    UncappedStep(p, n);
    if n <= 5 {
      UncappedGrows(p, n, 5);
      assert Uncapped(p, 5) == 16.0;
      UncappedIsNonNegative(p, n);
      if n < 5 {
        RoomAt(p, n);
      }
    } else {
      UncappedGrows(p, 6, n);
      UncappedGrows(p, 6, n + 1);
      assert Uncapped(p, 6) == 32.0;
    }
  }
}
