/** The outbound retry loop: exponential backoff computed in wrapping 64-bit
    durations (nanoseconds), a random jitter added on top, and a loop that stops
    on success, on a permanent error, on exhaustion or on cancellation. */
module Retry {
  import opened Int64

  const DEFAULT_BASE: int64 := 100_000_000
  const DEFAULT_CAP: int64 := 2_000_000_000

  function Pow2(k: nat): (r: int)
    ensures r >= 1
  {
    if k == 0 then 1 else 2 * Pow2(k - 1)
  }

  function Min(a: int, b: int): int {
    if a <= b then a else b
  }

  datatype Policy = Policy(maxAttempts: int64, baseDelay: int64, maxDelay: int64) {
    function Attempts(): (n: int64)
      ensures n >= 1
    {
      if maxAttempts <= 0 then 1 else maxAttempts
    }

    function Base(): (d: int64)
      ensures d >= 1
    {
      if baseDelay <= 0 then DEFAULT_BASE else baseDelay
    }

    function Cap(): (d: int64)
      ensures d >= 1
    {
      if maxDelay <= 0 then DEFAULT_CAP else maxDelay
    }
  }

  // ---------------------------------------------------------------------
  // Backoff
  // ---------------------------------------------------------------------

  /** uint(attempt-1): a negative count reads as a huge unsigned one. */
  function ShiftCount(attempt: int64): nat {
    if attempt >= 1 then attempt - 1 else TWO_64 + attempt - 1
  }

  /** 1 << count in 64 bits: zero from count 64 on. */
  function Scale(count: nat): int64 {
    if count >= 64 then 0 else Wrap(Pow2(count))
  }

  /** The exclusive upper bound of the jitter, as the code computes it. */
  function JitterBound(policy: Policy, attempt: int64): (exp: int64)
    ensures 1 <= exp <= policy.Cap()
  {
    var exp := Wrap(policy.Base() * Scale(ShiftCount(attempt)));
    if exp <= 0 || exp > policy.Cap() then policy.Cap() else exp
  }

  function Backoff(policy: Policy, attempt: int64, jitter: int64): int64
    requires 0 <= jitter < JitterBound(policy, attempt)
  {
    Wrap(policy.Base() + jitter)
  }

  /** What the schedule is meant to be: base doubled per attempt, capped. */
  function IdealBound(policy: Policy, attempt: int64): int
    requires attempt >= 1
  {
    Min(policy.Base() * Pow2(attempt - 1), policy.Cap())
  }

  lemma {:induction false} Pow2Adds(a: nat, b: nat)
    ensures Pow2(a + b) == Pow2(a) * Pow2(b)
  {
    if a > 0 { Pow2Adds(a - 1, b); }
  }

  lemma Pow2Of64()
    ensures Pow2(63) == TWO_63 && Pow2(64) == TWO_64
  {
    assert Pow2(8) == 0x100;
    Pow2Adds(8, 8);
    Pow2Adds(16, 16);
    Pow2Adds(32, 32);
    assert Pow2(64) == 2 * Pow2(63);
  }

  lemma WrapVanishes(base: int, k: nat)
    requires k >= 64
    ensures Wrap(base * Pow2(k)) == 0
  {
    Pow2Of64();
    Pow2Adds(k - 64, 64);
    assert base * Pow2(k) - 0 == (base * Pow2(k - 64)) * TWO_64;
    WrapPeriodic(base * Pow2(k), 0, base * Pow2(k - 64));
  }

  /** The scaled delay is the true product, truncated once. */
  lemma ScaledDelay(policy: Policy, attempt: int64)
    requires attempt >= 1
    ensures Wrap(policy.Base() * Scale(ShiftCount(attempt))) == Wrap(policy.Base() * Pow2(attempt - 1))
  {
    var k := attempt - 1;
    var base := policy.Base();
    if k >= 64 {
      WrapVanishes(base, k);
    } else {
      var q := WrapDifference(Pow2(k));
      assert base * Pow2(k) - base * Wrap(Pow2(k)) == (base * q) * TWO_64;
      WrapPeriodic(base * Pow2(k), base * Wrap(Pow2(k)), base * q);
    }
  }

  /** The bound is the ideal one unless the product overflows into a small positive delay. */
  lemma BoundExactIff(policy: Policy, attempt: int64)
    requires attempt >= 1
    ensures var product := policy.Base() * Pow2(attempt - 1);
            JitterBound(policy, attempt) == IdealBound(policy, attempt)
            <==> !(product >= TWO_63 && 0 < Wrap(product) < policy.Cap())
  {
    ScaledDelay(policy, attempt);
    hide Wrap, Scale, Pow2, Policy.Base, Policy.Cap;
    var product := policy.Base() * Pow2(attempt - 1);
    ProductGrows(policy.Base(), 1, Pow2(attempt - 1));
    if product < TWO_63 { WrapSmall(product); }
  }

  /** x + y is at least 2^33 when x * y = 2^64. */
  lemma {:induction false} SumOfFactors(x: int, y: int)
    requires x >= 1 && y >= 1 && x * y == TWO_64
    ensures x + y >= 0x2_0000_0000
  {
    var s, d := x + y, x - y;
    SquareOfSum(x, y);
    SquareNonNegative(d);
    assert s * s >= 4 * TWO_64;
    if s < 0x2_0000_0000 {
      Squares(s, 0x2_0000_0000);
    }
  }

  lemma SquareOfSum(x: int, y: int)
    ensures (x + y) * (x + y) == 4 * (x * y) + (x - y) * (x - y)
  {
  }

  lemma SquareNonNegative(d: int)
    ensures d * d >= 0
  {
  }

  lemma Squares(a: int, b: int)
    requires 0 <= a < b
    ensures a * a < b * b
  {
    ProductGrows(a, a, b);
    ProductGrows(b, a, b - 1);
  }

  /** An overflow that comes back as a positive delay costs a large product. */
  lemma WrongBoundNeedsLargeProduct(base: int, cap: int, k: nat)
    requires 1 <= base < TWO_63 && 1 <= cap < TWO_63
    requires base * Pow2(k) >= TWO_63 && 0 < Wrap(base * Pow2(k)) < cap
    ensures base * cap >= TWO_64 + 0x2_0000_0001
  {
    hide Wrap;
    if k >= 64 {
      WrapVanishes(base, k);
    } else {
      var q := WrapDifference(base * Pow2(k));
      Pow2Of64();
      Pow2Adds(k, 64 - k);
      hide Pow2;
      SmallResidue(base, cap, Pow2(k), Pow2(64 - k), Wrap(base * Pow2(k)), q);
    }
  }

  /** base * x = q * 2^64 + w with 0 < w < cap: w is a multiple of x, so both
      factors of the product are larger than they look. */
  lemma SmallResidue(base: int, cap: int, x: int, y: int, w: int, q: int)
    requires x >= 1 && y >= 1 && x * y == TWO_64
    requires base * x == w + q * TWO_64 && base * x >= TWO_63 && 0 < w < cap && w < TWO_63
    ensures base * cap >= TWO_64 + 0x2_0000_0001
  {
    assert q >= 1;
    assert q * TWO_64 == x * (q * y);
    assert w == x * (base - q * y);
    PositiveFactor(x, base - q * y);
    ProductGrows(y, 1, q);
    assert base >= y + 1;
    ProductGrows(x, 1, base - q * y);
    assert cap >= x + 1;
    SumOfFactors(x, y);
    LargeProduct(base, cap, x, y);
  }

  lemma LargeProduct(base: int, cap: int, x: int, y: int)
    requires x >= 1 && y >= 1 && base >= y + 1 && cap >= x + 1
    ensures base * cap >= x * y + x + y + 1
  {
    ProductGrows(base, x + 1, cap);
    ProductGrows(x + 1, y + 1, base);
    assert (x + 1) * (y + 1) == x * y + x + y + 1;
  }

  lemma PositiveFactor(x: int, z: int)
    requires x >= 1 && x * z > 0
    ensures z >= 1
  {
    if z <= 0 { ProductGrows(x, z, 0); }
  }

  lemma ProductGrows(a: int, b: int, c: int)
    requires a >= 0 && b <= c
    ensures a * b <= a * c
  {
  }

  /** Despite the wrapping arithmetic the schedule is exact at every attempt, as
      long as base * cap stays below 2^64 + 2^33 + 1. */
  lemma BackoffExact(policy: Policy, attempt: int64)
    requires attempt >= 1
    requires policy.Base() * policy.Cap() < TWO_64 + 0x2_0000_0001
    ensures JitterBound(policy, attempt) == IdealBound(policy, attempt)
  {
    BoundExactIff(policy, attempt);
    var product := policy.Base() * Pow2(attempt - 1);
    if product >= TWO_63 && 0 < Wrap(product) < policy.Cap() {
      WrongBoundNeedsLargeProduct(policy.Base(), policy.Cap(), attempt - 1);
    }
  }

  /** The threshold is sharp: at base = cap = 2^32 + 1 the 33rd delay comes back too small. */
  lemma BackoffInexactAtThreshold() returns (policy: Policy, attempt: int64)
    ensures attempt >= 1
    ensures policy.Base() * policy.Cap() == TWO_64 + 0x2_0000_0001
    ensures JitterBound(policy, attempt) < IdealBound(policy, attempt)
  {
    policy, attempt := Policy(40, 0x1_0000_0001, 0x1_0000_0001), 33;
    assert Pow2(8) == 0x100;
    Pow2Adds(8, 8);
    Pow2Adds(16, 16);
    hide Wrap, Pow2, Scale;
    assert Pow2(32) == 0x1_0000_0000;
    ScaledDelay(policy, attempt);
    WrapPeriodic(0x1_0000_0001 * 0x1_0000_0000, 0x1_0000_0000, 1);
    WrapSmall(0x1_0000_0000);
    assert JitterBound(policy, attempt) == 0x1_0000_0000;
  }

  // ---------------------------------------------------------------------
  // The sleep
  // ---------------------------------------------------------------------

  lemma Pow2Monotone(j: nat, k: nat)
    requires j <= k
    ensures Pow2(j) <= Pow2(k)
  {
    Pow2Adds(j, k - j);
    ProductGrows(Pow2(j), 1, Pow2(k - j));
  }

  /** Whatever the product does, no bound up to an attempt exceeds the ideal one there. */
  lemma BoundAtMostIdeal(policy: Policy, attempt: int64, last: int64)
    requires 1 <= attempt <= last
    ensures JitterBound(policy, attempt) <= IdealBound(policy, last)
  {
    Pow2Monotone(attempt - 1, last - 1);
    ScaledDelay(policy, attempt);
    hide Wrap, Scale, Pow2, Policy.Base, Policy.Cap;
    var product := policy.Base() * Pow2(attempt - 1);
    ProductGrows(policy.Base(), Pow2(attempt - 1), Pow2(last - 1));
    ProductGrows(policy.Base(), 1, Pow2(attempt - 1));
    if product < TWO_63 { WrapSmall(product); }
  }

  /** And some attempt up to there reaches it: before the product first overflows
      the schedule is exact, and the first overflow is negative, hence the cap. */
  lemma {:induction false} IdealIsReached(policy: Policy, last: int64) returns (attempt: int64)
    requires last >= 1
    ensures 1 <= attempt <= last && JitterBound(policy, attempt) == IdealBound(policy, last)
  {
    hide Wrap, Scale, Policy.Base, Policy.Cap;
    var product := policy.Base() * Pow2(last - 1);
    ScaledDelay(policy, last);
    if product < TWO_63 {
      BoundExactIff(policy, last);
      attempt := last;
    } else {
      assert last > 1;
      var half := policy.Base() * Pow2(last - 2);
      assert product == 2 * half;
      if half < TWO_63 {
        WrapPeriodic(product, product - TWO_64, 1);
        WrapSmall(product - TWO_64);
        attempt := last;
      } else {
        attempt := IdealIsReached(policy, last - 1);
      }
    }
  }

  /** The attempts a run sleeps after: every one but the last it may make. */
  predicate Slept(policy: Policy, attempt: int64) {
    1 <= attempt < policy.Attempts()
  }

  /** The longest sleep of a run would be this, were there no overflow. */
  function LongestSleep(policy: Policy): int
    requires policy.Attempts() > 1
  {
    policy.Base() + IdealBound(policy, policy.Attempts() - 1) - 1
  }

  /** No sleep of a run overflows, whatever the draw. */
  ghost predicate NeverOverflows(policy: Policy) {
    forall attempt: int64, jitter: int64 ::
      Slept(policy, attempt) && 0 <= jitter < JitterBound(policy, attempt) ==>
        Backoff(policy, attempt, jitter) == policy.Base() + jitter
  }

  lemma NeverOverflowsIff(policy: Policy)
    ensures NeverOverflows(policy) <==> policy.Attempts() == 1 || LongestSleep(policy) < TWO_63
  {
    hide Wrap, Pow2, IdealBound, JitterBound, Policy.Attempts, Policy.Base, Policy.Cap;
    if policy.Attempts() > 1 {
      var last := policy.Attempts() - 1;
      var worst := IdealIsReached(policy, last);
      if NeverOverflows(policy) {
        var jitter: int64 := JitterBound(policy, worst) - 1;
        assert Slept(policy, worst) && Backoff(policy, worst, jitter) == policy.Base() + jitter;
      }
      if LongestSleep(policy) < TWO_63 {
        forall attempt: int64, jitter: int64 | Slept(policy, attempt) && 0 <= jitter < JitterBound(policy, attempt)
          ensures Backoff(policy, attempt, jitter) == policy.Base() + jitter
        {
          BoundAtMostIdeal(policy, attempt, last);
          WrapSmall(policy.Base() + jitter);
        }
      }
    }
  }

  /** No sleep of a run exceeds MaxDelay, whatever the draw. */
  ghost predicate MaxDelayCapsSleep(policy: Policy) {
    forall attempt: int64, jitter: int64 ::
      Slept(policy, attempt) && 0 <= jitter < JitterBound(policy, attempt) ==>
        Backoff(policy, attempt, jitter) <= policy.Cap()
  }

  /** MaxDelay is documented as a cap on the sleep, but caps the jitter. The sleep
      stays within it exactly when the base, added on top of the largest jitter
      of the run, still does, or when MaxDelay is the largest duration there is. */
  lemma MaxDelayCapsSleepIff(policy: Policy)
    ensures MaxDelayCapsSleep(policy)
       <==> policy.Attempts() == 1 || LongestSleep(policy) <= policy.Cap() || policy.Cap() == TWO_63 - 1
  {
    hide Wrap, Pow2, IdealBound, JitterBound, Policy.Attempts, Policy.Base, Policy.Cap;
    if policy.Attempts() > 1 {
      var last := policy.Attempts() - 1;
      var worst := IdealIsReached(policy, last);
      if MaxDelayCapsSleep(policy) {
        var longest := Min(LongestSleep(policy), TWO_63 - 1);
        var jitter: int64 := longest - policy.Base();
        WrapSmall(longest);
        assert Slept(policy, worst) && Backoff(policy, worst, jitter) == longest;
      }
      if LongestSleep(policy) <= policy.Cap() {
        forall attempt: int64, jitter: int64 | Slept(policy, attempt) && 0 <= jitter < JitterBound(policy, attempt)
          ensures Backoff(policy, attempt, jitter) <= policy.Cap()
        {
          BoundAtMostIdeal(policy, attempt, last);
          WrapSmall(policy.Base() + jitter);
        }
      }
    }
  }

  /** The documented cap holds for the default policy, and for its delays up to
      six attempts; with seven it does not. */
  lemma DefaultDelaysCapped()
    ensures MaxDelayCapsSleep(Policy(3, DEFAULT_BASE, DEFAULT_CAP))
    ensures MaxDelayCapsSleep(Policy(6, DEFAULT_BASE, DEFAULT_CAP))
    ensures !MaxDelayCapsSleep(Policy(7, DEFAULT_BASE, DEFAULT_CAP))
  {
    assert Pow2(1) == 2 && Pow2(4) == 16 && Pow2(5) == 32;
    hide Pow2;
    MaxDelayCapsSleepIff(Policy(3, DEFAULT_BASE, DEFAULT_CAP));
    MaxDelayCapsSleepIff(Policy(6, DEFAULT_BASE, DEFAULT_CAP));
    MaxDelayCapsSleepIff(Policy(7, DEFAULT_BASE, DEFAULT_CAP));
  }

  // ---------------------------------------------------------------------
  // The loop
  // ---------------------------------------------------------------------

  datatype Outcome<E> = Succeeded | Failed(error: E)

  datatype Verdict<E> = Success | OperationError(error: E) | ContextError

  /** Everything the loop asks of the outside, per attempt: the operation's
      outcome, whether the context is done before it or during the sleep after
      it, the random draw, and which errors are worth a retry. */
  datatype World<!E> = World(
    operation: int -> Outcome<E>,
    retryable: E -> bool,
    doneBefore: int -> bool,
    doneDuring: int -> bool,
    draw: int -> nat)

  function Total(sleeps: seq<int64>): int {
    if sleeps == [] then 0 else Total(sleeps[..|sleeps| - 1]) + sleeps[|sleeps| - 1]
  }

  /** The sleep after a failed attempt. */
  function SleepAfter<E>(policy: Policy, world: World<E>, attempt: int64): int64 {
    Backoff(policy, attempt, world.draw(attempt) % JitterBound(policy, attempt))
  }

  /** What a schedule with this policy should sleep after an attempt: the base and
      a jitter below the base doubled per attempt, capped. */
  predicate Schedulable(policy: Policy) {
    && policy.Base() * policy.Cap() < TWO_64 + 0x2_0000_0001
    && (policy.Attempts() > 1 ==> LongestSleep(policy) < TWO_63)
  }

  lemma SleepIsExact<E>(policy: Policy, world: World<E>, attempt: int64)
    requires Schedulable(policy) && Slept(policy, attempt)
    ensures SleepAfter(policy, world, attempt)
         == policy.Base() + world.draw(attempt) % Min(policy.Base() * Pow2(attempt - 1), policy.Cap())
  {
    BackoffExact(policy, attempt);
    NeverOverflowsIff(policy);
    hide Wrap, JitterBound, Pow2, Policy.Base, Policy.Cap, Policy.Attempts;
    var jitter: int64 := world.draw(attempt) % JitterBound(policy, attempt);
    assert Backoff(policy, attempt, jitter) == policy.Base() + jitter;
  }

  lemma DrawBelow(draw: nat, bound: int)
    requires bound > 0
    ensures 0 <= draw % bound < bound
    ensures draw < bound ==> draw % bound == draw
  {
  }

  /** The delays that draws lead to are exactly those from the base up to below
      base + min(base * 2^i, cap). */
  lemma EveryDelayIsDrawn(policy: Policy, i: nat, delay: int)
    ensures (exists draw: nat :: DelayOf(policy, i, draw) == delay)
       <==> policy.Base() <= delay < policy.Base() + Min(policy.Base() * Pow2(i), policy.Cap())
  {
    hide Pow2, Policy.Base, Policy.Cap;
    ProductGrows(policy.Base(), 1, Pow2(i));
    var bound := Min(policy.Base() * Pow2(i), policy.Cap());
    forall draw: nat
      ensures 0 <= draw % bound < bound
    {
      DrawBelow(draw, bound);
    }
    if policy.Base() <= delay < policy.Base() + bound {
      var draw: nat := delay - policy.Base();
      DrawBelow(draw, bound);
      assert DelayOf(policy, i, draw) == delay;
    }
  }

  function DelayOf(policy: Policy, i: nat, draw: nat): int {
    ProductGrows(policy.Base(), 1, Pow2(i));
    policy.Base() + draw % Min(policy.Base() * Pow2(i), policy.Cap())
  }

  /** Unset delays are 100 milliseconds and 2 seconds, and a run makes at least one attempt. */
  lemma PolicyDefaults(policy: Policy)
    ensures policy.Base() == if policy.baseDelay <= 0 then 100_000_000 else policy.baseDelay
    ensures policy.Cap() == if policy.maxDelay <= 0 then 2_000_000_000 else policy.maxDelay
    ensures policy.Attempts() == if policy.maxAttempts <= 0 then 1 else policy.maxAttempts
  {
  }

  lemma SleepAtMost<E>(policy: Policy, world: World<E>, attempt: int64)
    ensures SleepAfter(policy, world, attempt) <= policy.Base() + policy.Cap() - 1
  {
    hide Wrap, JitterBound;
    var jitter := world.draw(attempt) % JitterBound(policy, attempt);
    WrapAtMost(policy.Base() + jitter);
  }

  lemma {:induction false} TotalAtMost(sleeps: seq<int64>, longest: int, count: nat)
    requires longest >= 0 && |sleeps| <= count
    requires forall i :: 0 <= i < |sleeps| ==> sleeps[i] <= longest
    ensures Total(sleeps) <= count * longest
  {
    if |sleeps| > 0 {
      TotalAtMost(sleeps[..|sleeps| - 1], longest, count - 1);
    } else {
      ProductGrows(longest, 0, count);
    }
  }

  /** A run that slept after k attempts slept at most k times base + cap - 1. */
  lemma TotalSleepBound<E>(policy: Policy, world: World<E>, sleeps: seq<int64>)
    requires |sleeps| <= policy.Attempts() - 1
    requires forall i :: 0 <= i < |sleeps| ==> sleeps[i] == SleepAfter(policy, world, i + 1)
    ensures Total(sleeps) <= (policy.Attempts() - 1) * (policy.Base() + policy.Cap() - 1)
  {
    hide SleepAfter;
    forall i | 0 <= i < |sleeps|
      ensures sleeps[i] <= policy.Base() + policy.Cap() - 1
    {
      SleepAtMost(policy, world, i + 1);
    }
    TotalAtMost(sleeps, policy.Base() + policy.Cap() - 1, policy.Attempts() - 1);
  }

  /** Every attempt before `calls` failed with a retryable error, uninterrupted. */
  ghost predicate RetriedUpTo<E>(world: World<E>, calls: int) {
    forall a :: 1 <= a < calls ==>
      && !world.doneBefore(a)
      && world.operation(a).Failed?
      && world.retryable(world.operation(a).error)
      && !world.doneDuring(a)
  }

  /** The verdict is that of the last operation run; a cancellation shows only
      when nothing was run. */
  ghost predicate RightVerdict<E>(world: World<E>, attempts: int, calls: int, verdict: Verdict<E>) {
    match verdict
    case Success => calls >= 1 && !world.doneBefore(calls) && world.operation(calls) == Succeeded
    case OperationError(e) =>
      && calls >= 1 && !world.doneBefore(calls) && world.operation(calls) == Failed(e)
      && (calls == attempts || !world.retryable(e) || world.doneDuring(calls) || world.doneBefore(calls + 1))
    case ContextError => calls == 0 && world.doneBefore(1)
  }

  /** A timer was started after every failed attempt that was neither last nor permanent. */
  function TimersStarted<E>(world: World<E>, attempts: int, calls: nat, verdict: Verdict<E>): nat {
    if calls == 0 then 0
    else if verdict.OperationError? && calls < attempts && world.retryable(verdict.error) then calls
    else calls - 1
  }

  method Do<E(==)>(policy: Policy, world: World<E>) returns (verdict: Verdict<E>, calls: nat, sleeps: seq<int64>)
    ensures calls <= policy.Attempts()
    ensures RetriedUpTo(world, calls)
    ensures RightVerdict(world, policy.Attempts(), calls, verdict)
    ensures |sleeps| == TimersStarted(world, policy.Attempts(), calls, verdict)
    ensures forall i :: 0 <= i < |sleeps| ==> sleeps[i] == SleepAfter(policy, world, i + 1)
    ensures Schedulable(policy) ==> forall i :: 0 <= i < |sleeps| ==> sleeps[i] == DelayOf(policy, i, world.draw(i + 1))
    ensures Total(sleeps) <= (policy.Attempts() - 1) * (policy.Base() + policy.Cap() - 1)
  {
    hide SleepAfter, Total, Policy.Base, Policy.Cap, DelayOf, Schedulable;
    var attempts := policy.Attempts();
    var attempt := 1;
    sleeps, calls := [], 0;
    var last: Verdict<E> := ContextError;
    while attempt <= attempts
      invariant 1 <= attempt <= attempts
      invariant calls == attempt - 1 && |sleeps| == calls
      invariant RetriedUpTo(world, attempt)
      invariant last == if calls == 0 then ContextError else OperationError(world.operation(calls).error)
      invariant forall i :: 0 <= i < |sleeps| ==> sleeps[i] == SleepAfter(policy, world, i + 1)
      decreases attempts - attempt
    {
      if world.doneBefore(attempt) {
        verdict := last;
        break;
      }
      var outcome := world.operation(attempt);
      calls := attempt;
      if outcome.Succeeded? {
        verdict := Success;
        break;
      }
      last := OperationError(outcome.error);
      if attempt == attempts || !world.retryable(outcome.error) {
        verdict := last;
        break;
      }
      sleeps := sleeps + [SleepAfter(policy, world, attempt)];
      if world.doneDuring(attempt) {
        verdict := last;
        break;
      }
      attempt := attempt + 1;
    }
    TotalSleepBound(policy, world, sleeps);
    SleepsAreExact(policy, world, sleeps);
  }

  lemma SleepsAreExact<E>(policy: Policy, world: World<E>, sleeps: seq<int64>)
    requires |sleeps| <= policy.Attempts() - 1
    requires forall i :: 0 <= i < |sleeps| ==> sleeps[i] == SleepAfter(policy, world, i + 1)
    ensures Schedulable(policy) ==> forall i :: 0 <= i < |sleeps| ==> sleeps[i] == DelayOf(policy, i, world.draw(i + 1))
  {
    hide SleepAfter, Schedulable, Pow2;
    if Schedulable(policy) {
      forall i | 0 <= i < |sleeps|
        ensures sleeps[i] == DelayOf(policy, i, world.draw(i + 1))
      {
        SleepIsExact(policy, world, i + 1);
      }
    }
  }
}
