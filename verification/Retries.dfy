/** Bounded retries and their delays (policy/retry.ts). Times are exact rationals; Math.random is a
    parameter in [0, 1). */
module Retries {
  import opened Records

  datatype Strategy = Fixed | Linear | Exponential | ExponentialJitter

  datatype Backoff = Backoff(strategy: Strategy, initialDelayMs: real, maxDelayMs: real, multiplier: real)

  function Pow(x: real, n: nat): real {
    if n == 0 then 1.0 else x * Pow(x, n - 1)
  }

  /** Math.round: halves go up. */
  function Round(x: real): real {
    (x + 0.5).Floor as real
  }

  function Min(x: real, y: real): real {
    if x <= y then x else y
  }

  function Exponent(retryIndex: nat): nat {
    if retryIndex > 1 then retryIndex - 1 else 0
  }

  function Raw(retryIndex: nat, b: Backoff, random: real): real {
    match b.strategy
    case Fixed => b.initialDelayMs
    case Linear => b.initialDelayMs * retryIndex as real
    case Exponential => Grown(b, Exponent(retryIndex))
    case ExponentialJitter => Jitter(Ceiling(retryIndex, b), random)
  }

  function Ceiling(retryIndex: nat, b: Backoff): real {
    Min(b.maxDelayMs, Grown(b, Exponent(retryIndex)))
  }

  /** The initial delay after `n` multiplications. */
  function Grown(b: Backoff, n: nat): real {
    b.initialDelayMs * Pow(b.multiplier, n)
  }

  /** Between half of the ceiling and the whole. */
  function Jitter(ceiling: real, random: real): real {
    ceiling * (0.5 + 0.5 * random)
  }

  function Rounded(most: real, raw: real): real {
    Min(most, if Round(raw) > 0.0 then Round(raw) else 0.0)
  }

  /** The delay after the failure of attempt `retryIndex`. It never exceeds the maximum. */
  function Delay(retryIndex: nat, b: Backoff, random: real): (d: real)
    ensures 0.0 <= d
    ensures d <= b.maxDelayMs || d == 0.0
  {
    if b.initialDelayMs <= 0.0 || b.maxDelayMs <= 0.0 then 0.0
    else Rounded(b.maxDelayMs, Raw(retryIndex, b, random))
  }

  lemma RoundKeepsOrder(x: real, y: real)
    requires x <= y
    ensures Round(x) <= Round(y)
  {
    var a, b := (x + 0.5).Floor, (y + 0.5).Floor;
    assert a as real <= x + 0.5 && y + 0.5 < b as real + 1.0;
    WholeOrder(a, b);
  }

  lemma WholeOrder(a: int, b: int)
    requires a as real < b as real + 1.0
    ensures a <= b
    ensures a as real <= b as real
  {
    assert (b + 1) as real == b as real + 1.0;
  }

  lemma MultiplyKeepsOrder(c: real, x: real, y: real)
    requires c >= 0.0 && x <= y
    ensures c * x <= c * y
  {}

  lemma {:induction false} PowGrows(x: real, m: nat, n: nat)
    requires x >= 1.0 && m <= n
    ensures 1.0 <= Pow(x, m) <= Pow(x, n)
    decreases n
  {
    if m < n {
      PowGrows(x, m, n - 1);
      assert Pow(x, n) - Pow(x, n - 1) == (x - 1.0) * Pow(x, n - 1);
    } else if n > 0 {
      PowGrows(x, n - 1, n - 1);
      assert Pow(x, n) - Pow(x, n - 1) == (x - 1.0) * Pow(x, n - 1);
    }
  }

  /** How the delay before rounding develops from the first retry on. */
  lemma RawSteps(i: nat, b: Backoff, random: real)
    requires i >= 1 && b.strategy != ExponentialJitter
    ensures Raw(1, b, random) == b.initialDelayMs
    ensures Raw(i + 1, b, random)
      == match b.strategy
         case Fixed => Raw(i, b, random)
         case Linear => Raw(i, b, random) + b.initialDelayMs
         case _ => b.multiplier * Raw(i, b, random)
  {
    if b.strategy == Linear {
      Distribute(b.initialDelayMs, i as real);
      assert (i + 1) as real == i as real + 1.0;
    } else if b.strategy == Exponential {
      Exchange(b.initialDelayMs, b.multiplier, Pow(b.multiplier, Exponent(i)));
      assert Pow(b.multiplier, Exponent(1)) == 1.0;
    }
  }

  lemma Distribute(x: real, y: real)
    ensures x * (y + 1.0) == x * y + x
  {}

  lemma Exchange(x: real, y: real, z: real)
    ensures x * (y * z) == y * (x * z)
  {}

  /** A delay is the whole number of milliseconds nearest to the raw one, halves up, or the maximum if
      that is less. */
  lemma DelayIsNearest(i: nat, b: Backoff, random: real) returns (n: nat)
    requires b.initialDelayMs > 0.0 && b.maxDelayMs > 0.0 && Raw(i, b, random) >= 0.0
    ensures n as real - 0.5 <= Raw(i, b, random) < n as real + 0.5
    ensures Delay(i, b, random) == if n as real <= b.maxDelayMs then n as real else b.maxDelayMs
  {
    var raw := Raw(i, b, random);
    var whole := (raw + 0.5).Floor;
    assert whole as real <= raw + 0.5 < whole as real + 1.0;
    WholeOrder(0, whole);
    n := whole;
  }

  /** Jitter is half of the ceiling, and grows evenly with the random number up to the whole. */
  lemma JitterIsEven(i: nat, b: Backoff, low: real, high: real) returns (top: real)
    requires b.strategy == ExponentialJitter
    ensures top == Min(b.maxDelayMs, Grown(b, if i >= 1 then i - 1 else 0))
    ensures Raw(i, b, 0.0) == 0.5 * top && Raw(i, b, 1.0) == top
    ensures Raw(i, b, high) - Raw(i, b, low) == top * (0.5 * high - 0.5 * low)
  {
    assert Exponent(i) == if i >= 1 then i - 1 else 0;
    top := Ceiling(i, b);
    Spread(top, low, high);
    Ends(top);
    assert Raw(i, b, high) == Jitter(top, high);
    assert Raw(i, b, low) == Jitter(top, low);
    assert Raw(i, b, 0.0) == Jitter(top, 0.0);
    assert Raw(i, b, 1.0) == Jitter(top, 1.0);
  }

  lemma Spread(top: real, low: real, high: real)
    ensures Jitter(top, high) - Jitter(top, low) == top * (0.5 * high - 0.5 * low)
  {
    assert top * (0.5 + 0.5 * high) - top * (0.5 + 0.5 * low) == top * ((0.5 + 0.5 * high) - (0.5 + 0.5 * low));
  }

  lemma Ends(top: real)
    ensures Jitter(top, 0.0) == 0.5 * top && Jitter(top, 1.0) == top
  {
    assert 0.5 + 0.5 * 0.0 == 0.5 && 0.5 + 0.5 * 1.0 == 1.0;
  }

  /** Without jitter, and with a multiplier of at least 1, delays do not shrink. */
  lemma DelaysGrow(i: nat, j: nat, b: Backoff, random: real, other: real)
    requires i <= j && b.strategy != ExponentialJitter
    requires b.strategy == Exponential ==> b.multiplier >= 1.0
    ensures Delay(i, b, random) <= Delay(j, b, other)
  {
    if b.initialDelayMs > 0.0 {
      RawGrows(i, j, b, random, other);
      RoundedKeepsOrder(b.maxDelayMs, Raw(i, b, random), Raw(j, b, other));
    }
  }

  lemma RoundedKeepsOrder(most: real, x: real, y: real)
    requires x <= y
    ensures Rounded(most, x) <= Rounded(most, y)
  {
    RoundKeepsOrder(x, y);
  }

  lemma RawGrows(i: nat, j: nat, b: Backoff, random: real, other: real)
    requires i <= j && b.strategy != ExponentialJitter && b.initialDelayMs > 0.0
    requires b.strategy == Exponential ==> b.multiplier >= 1.0
    ensures Raw(i, b, random) <= Raw(j, b, other)
  {
    if b.strategy == Exponential {
      PowGrows(b.multiplier, Exponent(i), Exponent(j));
      MultiplyKeepsOrder(b.initialDelayMs, Pow(b.multiplier, Exponent(i)), Pow(b.multiplier, Exponent(j)));
    } else if b.strategy == Linear {
      MultiplyKeepsOrder(b.initialDelayMs, i as real, j as real);
    }
  }

  /** With jitter, the delay lies between the roundings of half the exponential ceiling and of the
      whole. */
  lemma JitterRange(i: nat, b: Backoff, random: real)
    requires b.strategy == ExponentialJitter && 0.0 <= random < 1.0 && b.multiplier > 0.0
    requires b.initialDelayMs > 0.0 && b.maxDelayMs > 0.0
    ensures Min(b.maxDelayMs, Round(0.5 * Ceiling(i, b))) <= Delay(i, b, random) <= Round(Ceiling(i, b))
  {
    CeilingIsPositive(i, b);
    HalfToWhole(Ceiling(i, b), random);
    RoundedBetween(b.maxDelayMs, 0.5 * Ceiling(i, b), Jitter(Ceiling(i, b), random), Ceiling(i, b));
  }

  lemma CeilingIsPositive(i: nat, b: Backoff)
    requires b.multiplier > 0.0 && b.initialDelayMs > 0.0 && b.maxDelayMs > 0.0
    ensures Ceiling(i, b) > 0.0
  {
    PowPositive(b.multiplier, Exponent(i));
    Product(b.initialDelayMs, Pow(b.multiplier, Exponent(i)));
  }

  lemma HalfToWhole(x: real, random: real)
    requires x > 0.0 && 0.0 <= random < 1.0
    ensures 0.5 * x <= Jitter(x, random) <= x
  {
    MultiplyKeepsOrder(x, 0.0, random);
    MultiplyKeepsOrder(x, random, 1.0);
    assert x * (0.5 + 0.5 * random) == 0.5 * x + 0.5 * (x * random);
  }

  lemma RoundedBetween(most: real, low: real, raw: real, high: real)
    requires 0.0 <= low <= raw <= high
    ensures Min(most, Round(low)) <= Rounded(most, raw) <= Round(high)
  {
    RoundKeepsOrder(low, raw);
    RoundKeepsOrder(raw, high);
    RoundKeepsOrder(0.0, raw);
    assert Round(0.0) == 0.0;
  }

  lemma Product(x: real, y: real)
    requires x > 0.0 && y > 0.0
    ensures x * y > 0.0
  {}

  lemma {:induction false} PowPositive(x: real, n: nat)
    requires x > 0.0
    ensures Pow(x, n) > 0.0
  {
    if n > 0 { PowPositive(x, n - 1); }
  }

  // ---- The loop ----

  datatype Error = ValidationError | CircuitOpenError | OtherError(message: string)

  datatype Result<T> = Returned(value: T) | Threw(error: Error)

  datatype Policy = Policy(maxAttempts: int, backoff: Backoff, retryIf: Option<Error -> bool>)

  function Limit(p: Policy): nat {
    if p.maxAttempts > 1 then p.maxAttempts else 1
  }

  /** The error is retryable by default and by the policy's own predicate. */
  predicate Retryable(p: Policy, e: Error) {
    && !e.ValidationError? && !e.CircuitOpenError?
    && (p.retryIf.Some? ==> p.retryIf.value(e))
  }

  /** The delays after attempts 1 to n. */
  function Sum(delay: nat -> real, n: nat): real {
    if n == 0 then 0.0 else Sum(delay, n - 1) + delay(n)
  }

  function Delays(b: Backoff, random: nat -> real): nat -> real {
    (i: nat) => Delay(i, b, random(i))
  }

  /** `n` delays of the greatest length. */
  function AtMost(n: nat, b: Backoff): real {
    n as real * b.maxDelayMs
  }

  lemma OneMore(n: nat, x: real)
    ensures (n + 1) as real * x == n as real * x + x
  {
    assert (n + 1) as real == n as real + 1.0;
  }

  lemma MoreIsMore(m: nat, n: nat, b: Backoff)
    requires m <= n && b.maxDelayMs >= 0.0
    ensures 0.0 <= AtMost(m, b) <= AtMost(n, b)
  {
    var x, y := m as real, n as real;
    assert x <= y && x >= 0.0;
    MultiplyKeepsOrder(b.maxDelayMs, x, y);
    MultiplyKeepsOrder(b.maxDelayMs, 0.0, x);
  }

  lemma {:induction false} SumIsBounded(delay: nat -> real, n: nat, most: real)
    requires most >= 0.0 && forall i :: 0.0 <= delay(i) <= most
    ensures 0.0 <= Sum(delay, n) <= n as real * most
  {
    if n > 0 {
      SumIsBounded(delay, n - 1, most);
      OneMore(n - 1, most);
      assert 0.0 <= delay(n) <= most;
    }
  }

  lemma TotalIsBounded(b: Backoff, n: nat, random: nat -> real)
    ensures 0.0 <= Sum(Delays(b, random), n)
    ensures b.maxDelayMs >= 0.0 ==> Sum(Delays(b, random), n) <= AtMost(n, b)
  {
    var most := if b.maxDelayMs >= 0.0 then b.maxDelayMs else 0.0;
    forall i ensures 0.0 <= Delays(b, random)(i) <= most { DelayIsBounded(b, i, random(i), most); }
    SumIsBounded(Delays(b, random), n, most);
  }

  lemma DelayIsBounded(b: Backoff, i: nat, random: real, most: real)
    requires most == if b.maxDelayMs >= 0.0 then b.maxDelayMs else 0.0
    ensures 0.0 <= Delay(i, b, random) <= most
  {}

  /** runWithRetryPolicy: the outcome is that of the first attempt that succeeds or cannot be
      retried. */
  method RunWithRetry<T>(p: Policy, operation: nat -> Result<T>, random: nat -> real)
    returns (result: Result<T>, attempts: nat, slept: real)
    ensures 1 <= attempts && (attempts == 1 || attempts <= p.maxAttempts) && result == operation(attempts)
    ensures forall i :: 1 <= i < attempts ==>
      && operation(i).Threw? && operation(i).error != ValidationError && operation(i).error != CircuitOpenError
      && (p.retryIf.Some? ==> p.retryIf.value(operation(i).error))
    ensures result.Threw? && attempts < p.maxAttempts ==>
      result.error == ValidationError || result.error == CircuitOpenError || (p.retryIf.Some? && !p.retryIf.value(result.error))
    ensures slept == Sum(Delays(p.backoff, random), attempts - 1)
    ensures 0.0 <= slept && (p.backoff.maxDelayMs >= 0.0 ==> slept <= AtMost(Limit(p) - 1, p.backoff))
  {
    attempts, slept := 1, 0.0;
    while true
      invariant 1 <= attempts <= Limit(p)
      invariant forall i :: 1 <= i < attempts ==> operation(i).Threw? && Retryable(p, operation(i).error)
      invariant slept == Sum(Delays(p.backoff, random), attempts - 1)
      decreases Limit(p) - attempts
    {
      result := operation(attempts);
      if result.Returned? || attempts == Limit(p) || !Retryable(p, result.error) {
        TotalIsBounded(p.backoff, attempts - 1, random);
        if p.backoff.maxDelayMs >= 0.0 { MoreIsMore(attempts - 1, Limit(p) - 1, p.backoff); }
        return;
      }
      var delay := Delay(attempts, p.backoff, random(attempts));
      if delay > 0.0 { slept := slept + delay; }
      attempts := attempts + 1;
    }
  }
}
