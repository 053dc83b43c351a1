/** The policy algebra: partial policies, their merge (decorators/metadata.ts) and the normalized
    policy of a transition (policy/merger.ts). */
module Policies {
  import opened Records
  import opened Retries

  /** A property of a partial object: not there, there but undefined, or set. */
  datatype Slot<T> = Absent | Undefined | Given(value: T)

  datatype PartialBackoff = PartialBackoff(strategy: Slot<Strategy>, initialDelayMs: Slot<int>, maxDelayMs: Slot<int>, multiplier: Slot<real>)
  datatype PartialBreaker = PartialBreaker(enabled: Slot<bool>, key: Slot<string>, failureThreshold: Slot<int>, slidingWindowSize: Slot<int>, openDurationMs: Slot<int>, halfOpenMaxCalls: Slot<int>)
  datatype PartialOnFail = PartialOnFail(compensate: Slot<bool>, target: Slot<string>)
  datatype PartialBenchmark = PartialBenchmark(enabled: Slot<bool>)

  /** `retryIf` predicates are identified by a name. */
  datatype PartialRetry = PartialRetry(maxAttempts: Slot<int>, retryIf: Slot<string>, backoff: Slot<PartialBackoff>)

  datatype Partial = Partial(
    retry: Slot<PartialRetry>,
    circuitBreaker: Slot<PartialBreaker>,
    onFail: Slot<PartialOnFail>,
    benchmark: Slot<PartialBenchmark>,
    compensateHandler: Slot<string>)

  const NoBackoff := PartialBackoff(Absent, Absent, Absent, Absent)
  const NoBreaker := PartialBreaker(Absent, Absent, Absent, Absent, Absent, Absent)
  const NoOnFail := PartialOnFail(Absent, Absent)
  const NoBenchmark := PartialBenchmark(Absent)
  const NoRetry := PartialRetry(Absent, Absent, Absent)
  const NoPolicy := Partial(Absent, Absent, Absent, Absent, Absent)

  // ---- Merging ----

  /** One property of `{...lower, ...upper}`: present in the upper object, even as undefined, it
      hides the lower one. */
  function Over<T>(lower: Slot<T>, upper: Slot<T>): Slot<T> {
    if upper.Absent? then lower else upper
  }

  function Spread<T>(s: Slot<T>, empty: T): T {
    if s.Given? then s.value else empty
  }

  function OverBackoff(t: PartialBackoff, p: PartialBackoff): PartialBackoff {
    PartialBackoff(Over(t.strategy, p.strategy), Over(t.initialDelayMs, p.initialDelayMs), Over(t.maxDelayMs, p.maxDelayMs), Over(t.multiplier, p.multiplier))
  }

  function OverBreaker(t: PartialBreaker, p: PartialBreaker): PartialBreaker {
    PartialBreaker(Over(t.enabled, p.enabled), Over(t.key, p.key), Over(t.failureThreshold, p.failureThreshold), Over(t.slidingWindowSize, p.slidingWindowSize), Over(t.openDurationMs, p.openDurationMs), Over(t.halfOpenMaxCalls, p.halfOpenMaxCalls))
  }

  function OverOnFail(t: PartialOnFail, p: PartialOnFail): PartialOnFail {
    PartialOnFail(Over(t.compensate, p.compensate), Over(t.target, p.target))
  }

  function OverBenchmark(t: PartialBenchmark, p: PartialBenchmark): PartialBenchmark {
    PartialBenchmark(Over(t.enabled, p.enabled))
  }

  function OverRetry(t: PartialRetry, p: PartialRetry): PartialRetry {
    PartialRetry(
      Over(t.maxAttempts, p.maxAttempts),
      Over(t.retryIf, p.retryIf),
      Nested(t.backoff, p.backoff, OverBackoff, NoBackoff))
  }

  /** A nested object: merged if either side has one. */
  function Nested<T>(t: Slot<T>, p: Slot<T>, over: (T, T) -> T, empty: T): Slot<T> {
    if t.Given? || p.Given? then Given(over(Spread(t, empty), Spread(p, empty))) else Over(t, p)
  }

  function MergePartialInto(target: Partial, patch: Partial): Partial {
    Partial(
      Nested(target.retry, patch.retry, OverRetry, NoRetry),
      Nested(target.circuitBreaker, patch.circuitBreaker, OverBreaker, NoBreaker),
      Nested(target.onFail, patch.onFail, OverOnFail, NoOnFail),
      Nested(target.benchmark, patch.benchmark, OverBenchmark, NoBenchmark),
      Over(target.compensateHandler, patch.compensateHandler))
  }

  /** Merging is associative. */
  lemma MergeIsAssociative(a: Partial, b: Partial, c: Partial)
    ensures MergePartialInto(MergePartialInto(a, b), c) == MergePartialInto(a, MergePartialInto(b, c))
  {
    OverRetryIsMonoid();
    NestedIsAssociative(a.retry, b.retry, c.retry, OverRetry, NoRetry);
    NestedIsAssociative(a.circuitBreaker, b.circuitBreaker, c.circuitBreaker, OverBreaker, NoBreaker);
    NestedIsAssociative(a.onFail, b.onFail, c.onFail, OverOnFail, NoOnFail);
    NestedIsAssociative(a.benchmark, b.benchmark, c.benchmark, OverBenchmark, NoBenchmark);
  }

  /** `over` is a monoid operation with identity `empty`. */
  ghost predicate Monoid<T(!new)>(over: (T, T) -> T, empty: T) {
    && (forall x, y, z :: over(over(x, y), z) == over(x, over(y, z)))
    && (forall x :: over(empty, x) == x && over(x, empty) == x)
  }

  lemma NestedIsAssociative<T(!new)>(a: Slot<T>, b: Slot<T>, c: Slot<T>, over: (T, T) -> T, empty: T)
    requires Monoid(over, empty)
    ensures Nested(Nested(a, b, over, empty), c, over, empty) == Nested(a, Nested(b, c, over, empty), over, empty)
  {}

  lemma OverRetryIsMonoid()
    ensures Monoid(OverRetry, NoRetry)
  {
    assert Monoid(OverBackoff, NoBackoff);
    forall x: PartialRetry, y: PartialRetry, z: PartialRetry
      ensures OverRetry(OverRetry(x, y), z) == OverRetry(x, OverRetry(y, z))
    {
      NestedIsAssociative(x.backoff, y.backoff, z.backoff, OverBackoff, NoBackoff);
    }
  }

  /** The empty policy is the identity of merging, on both sides. */
  lemma EmptyIsIdentity(a: Partial)
    ensures MergePartialInto(NoPolicy, a) == a == MergePartialInto(a, NoPolicy)
  {
    OverRetryIsMonoid();
    if a.retry.Given? { assert OverRetry(NoRetry, a.retry.value) == a.retry.value == OverRetry(a.retry.value, NoRetry); }
  }

  // ---- Normalizing ----

  datatype Normalized = Normalized(
    maxAttempts: int,
    retryIf: Option<string>,
    strategy: Strategy,
    initialDelayMs: int,
    maxDelayMs: int,
    multiplier: real,
    enabled: bool,
    key: string,
    failureThreshold: int,
    slidingWindowSize: int,
    openDurationMs: int,
    halfOpenMaxCalls: int,
    compensate: bool,
    target: string,
    benchmarkEnabled: bool,
    compensateHandler: Option<string>)

  function SdkDefaults(breakerKey: string): Normalized {
    Normalized(1, None, Exponential, 100, 5000, 2.0, false, breakerKey, 5, 10, 30000, 1, false, "error", true, None)
  }

  /** `if (slot !== undefined) field = slot` */
  function Choose<T>(field: T, slot: Slot<T>): T {
    if slot.Given? then slot.value else field
  }

  /** A leaf that has no default. */
  function Lift<T>(slot: Slot<T>): Slot<Option<T>> {
    match slot
    case Absent => Absent
    case Undefined => Undefined
    case Given(v) => Given(Some(v))
  }

  function RetryOf(l: Partial): PartialRetry { Spread(l.retry, NoRetry) }
  function BackoffOf(l: Partial): PartialBackoff { Spread(RetryOf(l).backoff, NoBackoff) }
  function BreakerOf(l: Partial): PartialBreaker { Spread(l.circuitBreaker, NoBreaker) }
  function OnFailOf(l: Partial): PartialOnFail { Spread(l.onFail, NoOnFail) }
  function BenchmarkOf(l: Partial): PartialBenchmark { Spread(l.benchmark, NoBenchmark) }

  // The leaves that a layer can set.

  function MaxAttempts(l: Partial): Slot<int> { RetryOf(l).maxAttempts }
  function RetryIf(l: Partial): Slot<Option<string>> { Lift(RetryOf(l).retryIf) }
  function Strategy(l: Partial): Slot<Strategy> { BackoffOf(l).strategy }
  function InitialDelayMs(l: Partial): Slot<int> { BackoffOf(l).initialDelayMs }
  function MaxDelayMs(l: Partial): Slot<int> { BackoffOf(l).maxDelayMs }
  function Multiplier(l: Partial): Slot<real> { BackoffOf(l).multiplier }
  function Enabled(l: Partial): Slot<bool> { BreakerOf(l).enabled }
  function Key(l: Partial): Slot<string> { BreakerOf(l).key }
  function FailureThreshold(l: Partial): Slot<int> { BreakerOf(l).failureThreshold }
  function SlidingWindowSize(l: Partial): Slot<int> { BreakerOf(l).slidingWindowSize }
  function OpenDurationMs(l: Partial): Slot<int> { BreakerOf(l).openDurationMs }
  function HalfOpenMaxCalls(l: Partial): Slot<int> { BreakerOf(l).halfOpenMaxCalls }
  function Compensate(l: Partial): Slot<bool> { OnFailOf(l).compensate }
  function Target(l: Partial): Slot<string> { OnFailOf(l).target }
  function BenchmarkEnabled(l: Partial): Slot<bool> { BenchmarkOf(l).enabled }
  function CompensateHandler(l: Partial): Slot<Option<string>> { Lift(l.compensateHandler) }

  /** The fields after one layer. */
  function Apply(n: Normalized, l: Partial): Normalized {
    Normalized(
      Choose(n.maxAttempts, MaxAttempts(l)),
      Choose(n.retryIf, RetryIf(l)),
      Choose(n.strategy, Strategy(l)),
      Choose(n.initialDelayMs, InitialDelayMs(l)),
      Choose(n.maxDelayMs, MaxDelayMs(l)),
      Choose(n.multiplier, Multiplier(l)),
      Choose(n.enabled, Enabled(l)),
      Choose(n.key, Key(l)),
      Choose(n.failureThreshold, FailureThreshold(l)),
      Choose(n.slidingWindowSize, SlidingWindowSize(l)),
      Choose(n.openDurationMs, OpenDurationMs(l)),
      Choose(n.halfOpenMaxCalls, HalfOpenMaxCalls(l)),
      Choose(n.compensate, Compensate(l)),
      Choose(n.target, Target(l)),
      Choose(n.benchmarkEnabled, BenchmarkEnabled(l)),
      Choose(n.compensateHandler, CompensateHandler(l)))
  }

  /** Layers from the lowest precedence to the highest; absent ones are skipped. */
  function Layered(n: Normalized, layers: seq<Option<Partial>>): Normalized
    decreases |layers|
  {
    if layers == [] then n
    else
      var below := Layered(n, layers[..|layers| - 1]);
      var top := layers[|layers| - 1];
      if top.Some? then Apply(below, top.value) else below
  }

  method NormalizeTransitionPolicy(breakerKey: string, global: Option<Partial>, machine: Option<Partial>,
                                   transition: Option<Partial>, decorator: Option<Partial>) returns (n: Normalized)
    ensures n == Layered(SdkDefaults(breakerKey), [global, machine, transition, decorator])
  {
    var layers := [global, machine, transition, decorator];
    n := SdkDefaults(breakerKey);
    for i := 0 to |layers|
      invariant n == Layered(SdkDefaults(breakerKey), layers[..i])
    {
      assert layers[..i + 1][..i] == layers[..i];
      if layers[i].None? { continue; }
      n := ApplyLayer(n, layers[i].value);
    }
    assert layers[..|layers|] == layers;
  }

  method ApplyLayer(n: Normalized, l: Partial) returns (next: Normalized)
    ensures next == Apply(n, l)
  {
    next := ApplyRetryAndBackoff(n, l);
    if l.circuitBreaker.Given? { next := ApplyBreaker(next, l.circuitBreaker.value); }
    next := ApplyRest(next, l);
  }

  method ApplyRetryAndBackoff(n: Normalized, l: Partial) returns (next: Normalized)
    ensures next == n.(maxAttempts := Choose(n.maxAttempts, MaxAttempts(l)), retryIf := Choose(n.retryIf, RetryIf(l)),
      strategy := Choose(n.strategy, Strategy(l)), initialDelayMs := Choose(n.initialDelayMs, InitialDelayMs(l)),
      maxDelayMs := Choose(n.maxDelayMs, MaxDelayMs(l)), multiplier := Choose(n.multiplier, Multiplier(l)))
  {
    next := n;
    if l.retry.Given? {
      next := ApplyRetry(next, l.retry.value);
      if l.retry.value.backoff.Given? { next := ApplyBackoff(next, l.retry.value.backoff.value); }
    }
  }

  /** The groups without nested objects of many fields. */
  method ApplyRest(n: Normalized, l: Partial) returns (next: Normalized)
    ensures next == n.(compensate := Choose(n.compensate, Compensate(l)), target := Choose(n.target, Target(l)),
      benchmarkEnabled := Choose(n.benchmarkEnabled, BenchmarkEnabled(l)),
      compensateHandler := Choose(n.compensateHandler, CompensateHandler(l)))
  {
    next := n;
    if l.onFail.Given? { next := ApplyOnFail(next, l.onFail.value); }
    if l.benchmark.Given? && l.benchmark.value.enabled.Given? {
      next := next.(benchmarkEnabled := l.benchmark.value.enabled.value);
    }
    if l.compensateHandler.Given? { next := next.(compensateHandler := Some(l.compensateHandler.value)); }
  }

  method ApplyRetry(n: Normalized, r: PartialRetry) returns (next: Normalized)
    ensures next == n.(maxAttempts := Choose(n.maxAttempts, r.maxAttempts), retryIf := Choose(n.retryIf, Lift(r.retryIf)))
  {
    next := n;
    if r.maxAttempts.Given? { next := next.(maxAttempts := r.maxAttempts.value); }
    if r.retryIf.Given? { next := next.(retryIf := Some(r.retryIf.value)); }
  }

  method ApplyBackoff(n: Normalized, p: PartialBackoff) returns (next: Normalized)
    ensures next == n.(strategy := Choose(n.strategy, p.strategy),
      initialDelayMs := Choose(n.initialDelayMs, p.initialDelayMs),
      maxDelayMs := Choose(n.maxDelayMs, p.maxDelayMs),
      multiplier := Choose(n.multiplier, p.multiplier))
  {
    next := n;
    if p.strategy.Given? { next := next.(strategy := p.strategy.value); }
    if p.initialDelayMs.Given? { next := next.(initialDelayMs := p.initialDelayMs.value); }
    if p.maxDelayMs.Given? { next := next.(maxDelayMs := p.maxDelayMs.value); }
    if p.multiplier.Given? { next := next.(multiplier := p.multiplier.value); }
  }

  method ApplyBreaker(n: Normalized, p: PartialBreaker) returns (next: Normalized)
    ensures next == n.(enabled := Choose(n.enabled, p.enabled),
      key := Choose(n.key, p.key),
      failureThreshold := Choose(n.failureThreshold, p.failureThreshold),
      slidingWindowSize := Choose(n.slidingWindowSize, p.slidingWindowSize),
      openDurationMs := Choose(n.openDurationMs, p.openDurationMs),
      halfOpenMaxCalls := Choose(n.halfOpenMaxCalls, p.halfOpenMaxCalls))
  {
    next := n;
    if p.enabled.Given? { next := next.(enabled := p.enabled.value); }
    if p.key.Given? { next := next.(key := p.key.value); }
    if p.failureThreshold.Given? { next := next.(failureThreshold := p.failureThreshold.value); }
    if p.slidingWindowSize.Given? { next := next.(slidingWindowSize := p.slidingWindowSize.value); }
    if p.openDurationMs.Given? { next := next.(openDurationMs := p.openDurationMs.value); }
    if p.halfOpenMaxCalls.Given? { next := next.(halfOpenMaxCalls := p.halfOpenMaxCalls.value); }
  }

  method ApplyOnFail(n: Normalized, p: PartialOnFail) returns (next: Normalized)
    ensures next == n.(compensate := Choose(n.compensate, p.compensate),
      target := Choose(n.target, p.target))
  {
    next := n;
    if p.compensate.Given? { next := next.(compensate := p.compensate.value); }
    if p.target.Given? { next := next.(target := p.target.value); }
  }

  // ---- Precedence ----

  predicate Sets<T>(layers: seq<Option<Partial>>, slot: Partial -> Slot<T>, i: nat)
    requires i < |layers|
  {
    layers[i].Some? && slot(layers[i].value).Given?
  }

  /** Layer i sets the leaf to `value`, and no higher layer sets it. */
  ghost predicate SetLast<T>(value: T, layers: seq<Option<Partial>>, slot: Partial -> Slot<T>, i: nat)
    requires i < |layers|
  {
    && Sets(layers, slot, i) && slot(layers[i].value).value == value
    && forall j :: i < j < |layers| ==> !Sets(layers, slot, j)
  }

  ghost predicate NoneSets<T>(layers: seq<Option<Partial>>, slot: Partial -> Slot<T>) {
    forall i :: 0 <= i < |layers| ==> !Sets(layers, slot, i)
  }

  /** The value of the highest layer that sets it, or the default. */
  ghost predicate FromHighest<T>(value: T, otherwise: T, layers: seq<Option<Partial>>, slot: Partial -> Slot<T>) {
    || (value == otherwise && NoneSets(layers, slot))
    || exists i :: 0 <= i < |layers| && SetLast(value, layers, slot, i)
  }

  /** The fields of one leaf over the layers. */
  function Folded<T>(field: T, layers: seq<Option<Partial>>, slot: Partial -> Slot<T>): T
    decreases |layers|
  {
    if layers == [] then field
    else
      var below := Folded(field, layers[..|layers| - 1], slot);
      var top := layers[|layers| - 1];
      if top.Some? then Choose(below, slot(top.value)) else below
  }

  lemma {:induction false} FoldedIsHighest<T>(field: T, layers: seq<Option<Partial>>, slot: Partial -> Slot<T>)
    ensures FromHighest(Folded(field, layers, slot), field, layers, slot)
    decreases |layers|
  {
    if layers != [] {
      var n := |layers| - 1;
      var below := layers[..n];
      FoldedIsHighest(field, below, slot);
      var value := Folded(field, layers, slot);
      if Sets(layers, slot, n) {
        assert SetLast(value, layers, slot, n);
      } else if NoneSets(below, slot) {
        forall i | 0 <= i < |layers| ensures !Sets(layers, slot, i) {
          if i < n { assert !Sets(below, slot, i); }
        }
      } else {
        var i :| 0 <= i < n && SetLast(value, below, slot, i);
        forall j | i < j < |layers| ensures !Sets(layers, slot, j) {
          if j < n { assert !Sets(below, slot, j); }
        }
        assert SetLast(value, layers, slot, i);
      }
    }
  }

  lemma {:induction false} LeafIsFolded<T>(n: Normalized, layers: seq<Option<Partial>>, get: Normalized -> T, slot: Partial -> Slot<T>)
    requires forall x, l :: get(Apply(x, l)) == Choose(get(x), slot(l))
    ensures get(Layered(n, layers)) == Folded(get(n), layers, slot)
    ensures FromHighest(get(Layered(n, layers)), get(n), layers, slot)
    decreases |layers|
  {
    if layers != [] { LeafIsFolded(n, layers[..|layers| - 1], get, slot); }
    FoldedIsHighest(get(n), layers, slot);
  }

  /** Main result: every leaf of the normalized policy comes from the highest-precedence layer that
      sets it, and from these defaults when none does. */
  lemma EveryLeafFromHighest(breakerKey: string, layers: seq<Option<Partial>>)
    ensures var r := Layered(SdkDefaults(breakerKey), layers);
      && FromHighest(r.maxAttempts, 1, layers, (l: Partial) => RetryOf(l).maxAttempts)
      && FromHighest(r.retryIf, None, layers, (l: Partial) => Lift(RetryOf(l).retryIf))
      && FromHighest(r.strategy, Exponential, layers, (l: Partial) => BackoffOf(l).strategy)
      && FromHighest(r.initialDelayMs, 100, layers, (l: Partial) => BackoffOf(l).initialDelayMs)
      && FromHighest(r.maxDelayMs, 5000, layers, (l: Partial) => BackoffOf(l).maxDelayMs)
      && FromHighest(r.multiplier, 2.0, layers, (l: Partial) => BackoffOf(l).multiplier)
      && FromHighest(r.enabled, false, layers, (l: Partial) => BreakerOf(l).enabled)
      && FromHighest(r.key, breakerKey, layers, (l: Partial) => BreakerOf(l).key)
      && FromHighest(r.failureThreshold, 5, layers, (l: Partial) => BreakerOf(l).failureThreshold)
      && FromHighest(r.slidingWindowSize, 10, layers, (l: Partial) => BreakerOf(l).slidingWindowSize)
      && FromHighest(r.openDurationMs, 30000, layers, (l: Partial) => BreakerOf(l).openDurationMs)
      && FromHighest(r.halfOpenMaxCalls, 1, layers, (l: Partial) => BreakerOf(l).halfOpenMaxCalls)
      && FromHighest(r.compensate, false, layers, (l: Partial) => OnFailOf(l).compensate)
      && FromHighest(r.target, "error", layers, (l: Partial) => OnFailOf(l).target)
      && FromHighest(r.benchmarkEnabled, true, layers, (l: Partial) => BenchmarkOf(l).enabled)
      && FromHighest(r.compensateHandler, None, layers, (l: Partial) => Lift(l.compensateHandler))
  {
    var d := SdkDefaults(breakerKey);
    LeafIsFolded(d, layers, (x: Normalized) => x.maxAttempts, (l: Partial) => RetryOf(l).maxAttempts);
    LeafIsFolded(d, layers, (x: Normalized) => x.retryIf, (l: Partial) => Lift(RetryOf(l).retryIf));
    LeafIsFolded(d, layers, (x: Normalized) => x.strategy, (l: Partial) => BackoffOf(l).strategy);
    LeafIsFolded(d, layers, (x: Normalized) => x.initialDelayMs, (l: Partial) => BackoffOf(l).initialDelayMs);
    LeafIsFolded(d, layers, (x: Normalized) => x.maxDelayMs, (l: Partial) => BackoffOf(l).maxDelayMs);
    LeafIsFolded(d, layers, (x: Normalized) => x.multiplier, (l: Partial) => BackoffOf(l).multiplier);
    LeafIsFolded(d, layers, (x: Normalized) => x.enabled, (l: Partial) => BreakerOf(l).enabled);
    LeafIsFolded(d, layers, (x: Normalized) => x.key, (l: Partial) => BreakerOf(l).key);
    LeafIsFolded(d, layers, (x: Normalized) => x.failureThreshold, (l: Partial) => BreakerOf(l).failureThreshold);
    LeafIsFolded(d, layers, (x: Normalized) => x.slidingWindowSize, (l: Partial) => BreakerOf(l).slidingWindowSize);
    LeafIsFolded(d, layers, (x: Normalized) => x.openDurationMs, (l: Partial) => BreakerOf(l).openDurationMs);
    LeafIsFolded(d, layers, (x: Normalized) => x.halfOpenMaxCalls, (l: Partial) => BreakerOf(l).halfOpenMaxCalls);
    LeafIsFolded(d, layers, (x: Normalized) => x.compensate, (l: Partial) => OnFailOf(l).compensate);
    LeafIsFolded(d, layers, (x: Normalized) => x.target, (l: Partial) => OnFailOf(l).target);
    LeafIsFolded(d, layers, (x: Normalized) => x.benchmarkEnabled, (l: Partial) => BenchmarkOf(l).enabled);
    LeafIsFolded(d, layers, (x: Normalized) => x.compensateHandler, (l: Partial) => Lift(l.compensateHandler));
  }

  // ---- Merging two adjacent layers ----

  /** The upper object has the leaf as an explicit undefined over a value of the lower one. */
  predicate Hides<T>(lower: Slot<T>, upper: Slot<T>) {
    lower.Given? && upper.Undefined?
  }

  /** Some leaf set in `t` is explicitly undefined in `p`. */
  predicate Erases(t: Partial, p: Partial) {
    ErasesRetry(t, p) || ErasesBreaker(t, p) || ErasesRest(t, p)
  }

  predicate ErasesRetry(t: Partial, p: Partial) {
    || Hides(MaxAttempts(t), MaxAttempts(p))
    || Hides(RetryIf(t), RetryIf(p))
    || Hides(Strategy(t), Strategy(p))
    || Hides(InitialDelayMs(t), InitialDelayMs(p))
    || Hides(MaxDelayMs(t), MaxDelayMs(p))
    || Hides(Multiplier(t), Multiplier(p))
  }

  predicate ErasesBreaker(t: Partial, p: Partial) {
    || Hides(Enabled(t), Enabled(p))
    || Hides(Key(t), Key(p))
    || Hides(FailureThreshold(t), FailureThreshold(p))
    || Hides(SlidingWindowSize(t), SlidingWindowSize(p))
    || Hides(OpenDurationMs(t), OpenDurationMs(p))
    || Hides(HalfOpenMaxCalls(t), HalfOpenMaxCalls(p))
  }

  predicate ErasesRest(t: Partial, p: Partial) {
    || Hides(Compensate(t), Compensate(p))
    || Hides(Target(t), Target(p))
    || Hides(BenchmarkEnabled(t), BenchmarkEnabled(p))
    || Hides(CompensateHandler(t), CompensateHandler(p))
  }

  /** The leaves of a merge. */
  lemma MergedLeaves(t: Partial, p: Partial)
    ensures var r := MergePartialInto(t, p);
      && MaxAttempts(r) == Over(MaxAttempts(t), MaxAttempts(p))
      && RetryIf(r) == Over(RetryIf(t), RetryIf(p))
      && Strategy(r) == Over(Strategy(t), Strategy(p))
      && InitialDelayMs(r) == Over(InitialDelayMs(t), InitialDelayMs(p))
      && MaxDelayMs(r) == Over(MaxDelayMs(t), MaxDelayMs(p))
      && Multiplier(r) == Over(Multiplier(t), Multiplier(p))
      && Enabled(r) == Over(Enabled(t), Enabled(p))
      && Key(r) == Over(Key(t), Key(p))
      && FailureThreshold(r) == Over(FailureThreshold(t), FailureThreshold(p))
      && SlidingWindowSize(r) == Over(SlidingWindowSize(t), SlidingWindowSize(p))
      && OpenDurationMs(r) == Over(OpenDurationMs(t), OpenDurationMs(p))
      && HalfOpenMaxCalls(r) == Over(HalfOpenMaxCalls(t), HalfOpenMaxCalls(p))
      && Compensate(r) == Over(Compensate(t), Compensate(p))
      && Target(r) == Over(Target(t), Target(p))
      && BenchmarkEnabled(r) == Over(BenchmarkEnabled(t), BenchmarkEnabled(p))
      && CompensateHandler(r) == Over(CompensateHandler(t), CompensateHandler(p))
  {}

  lemma ChooseOver<T>(field: T, t: Slot<T>, p: Slot<T>)
    requires !Hides(t, p)
    ensures Choose(field, Over(t, p)) == Choose(Choose(field, t), p)
  {}

  /** Without such a leaf, one merged layer is as good as the two. */
  lemma MergeKeepsLayers(n: Normalized, t: Partial, p: Partial)
    requires !Erases(t, p)
    ensures Apply(n, MergePartialInto(t, p)) == Apply(Apply(n, t), p)
  {
    MergedLeaves(t, p);
    ChooseOver(n.maxAttempts, MaxAttempts(t), MaxAttempts(p));
    ChooseOver(n.retryIf, RetryIf(t), RetryIf(p));
    ChooseOver(n.strategy, Strategy(t), Strategy(p));
    ChooseOver(n.initialDelayMs, InitialDelayMs(t), InitialDelayMs(p));
    ChooseOver(n.maxDelayMs, MaxDelayMs(t), MaxDelayMs(p));
    ChooseOver(n.multiplier, Multiplier(t), Multiplier(p));
    ChooseOver(n.enabled, Enabled(t), Enabled(p));
    ChooseOver(n.key, Key(t), Key(p));
    ChooseOver(n.failureThreshold, FailureThreshold(t), FailureThreshold(p));
    ChooseOver(n.slidingWindowSize, SlidingWindowSize(t), SlidingWindowSize(p));
    ChooseOver(n.openDurationMs, OpenDurationMs(t), OpenDurationMs(p));
    ChooseOver(n.halfOpenMaxCalls, HalfOpenMaxCalls(t), HalfOpenMaxCalls(p));
    ChooseOver(n.compensate, Compensate(t), Compensate(p));
    ChooseOver(n.target, Target(t), Target(p));
    ChooseOver(n.benchmarkEnabled, BenchmarkEnabled(t), BenchmarkEnabled(p));
    ChooseOver(n.compensateHandler, CompensateHandler(t), CompensateHandler(p));
  }

  /** A policy that differs from every leaf set in `t`. */
  function Contrary(t: Partial): Normalized {
    Normalized(
      Spread(MaxAttempts(t), 0) + 1,
      None,
      if Spread(Strategy(t), Linear) == Fixed then Linear else Fixed,
      Spread(InitialDelayMs(t), 0) + 1,
      Spread(MaxDelayMs(t), 0) + 1,
      Spread(Multiplier(t), 0.0) + 1.0,
      !Spread(Enabled(t), false),
      Spread(Key(t), "") + "x",
      Spread(FailureThreshold(t), 0) + 1,
      Spread(SlidingWindowSize(t), 0) + 1,
      Spread(OpenDurationMs(t), 0) + 1,
      Spread(HalfOpenMaxCalls(t), 0) + 1,
      !Spread(Compensate(t), false),
      Spread(Target(t), "") + "x",
      !Spread(BenchmarkEnabled(t), false),
      None)
  }

  /** With such a leaf, the merged layer loses the lower value, on this policy for one. */
  lemma EraseLosesLeaf(t: Partial, p: Partial)
    requires Erases(t, p)
    ensures Apply(Contrary(t), MergePartialInto(t, p)) != Apply(Apply(Contrary(t), t), p)
  {
    if ErasesRetry(t, p) {
      EraseLosesRetry(t, p);
    } else if ErasesBreaker(t, p) {
      EraseLosesBreaker(t, p);
    } else {
      EraseLosesRest(t, p);
    }
  }

  lemma EraseLosesRetry(t: Partial, p: Partial)
    requires ErasesRetry(t, p)
    ensures Apply(Contrary(t), MergePartialInto(t, p)) != Apply(Apply(Contrary(t), t), p)
  {
    MergedLeaves(t, p);
  }

  lemma EraseLosesBreaker(t: Partial, p: Partial)
    requires ErasesBreaker(t, p)
    ensures Apply(Contrary(t), MergePartialInto(t, p)) != Apply(Apply(Contrary(t), t), p)
  {
    MergedLeaves(t, p);
  }

  lemma EraseLosesRest(t: Partial, p: Partial)
    requires ErasesRest(t, p)
    ensures Apply(Contrary(t), MergePartialInto(t, p)) != Apply(Apply(Contrary(t), t), p)
  {
    MergedLeaves(t, p);
  }

  /** Main result: replacing two adjacent layers by their merge never changes the normalized policy
      exactly when the upper one has no explicit undefined over a leaf that the lower one sets. */
  lemma MergeIsLayeringIff(t: Partial, p: Partial)
    ensures (forall n :: Apply(n, MergePartialInto(t, p)) == Apply(Apply(n, t), p)) <==> !Erases(t, p)
  {
    if Erases(t, p) {
      EraseLosesLeaf(t, p);
    } else {
      forall n ensures Apply(n, MergePartialInto(t, p)) == Apply(Apply(n, t), p) { MergeKeepsLayers(n, t, p); }
    }
  }

  /** The same in the middle of any list of layers. */
  lemma {:induction false} MergeInside(n: Normalized, below: seq<Option<Partial>>, t: Partial, p: Partial, above: seq<Option<Partial>>)
    requires !Erases(t, p)
    ensures Layered(n, below + [Some(MergePartialInto(t, p))] + above) == Layered(n, below + [Some(t), Some(p)] + above)
    decreases |above|
  {
    var merged := below + [Some(MergePartialInto(t, p))];
    var two := below + [Some(t), Some(p)];
    if above == [] {
      assert merged + above == merged && two + above == two;
      assert merged[..|below|] == below && two[..|below| + 1] == below + [Some(t)] && (below + [Some(t)])[..|below|] == below;
      MergeKeepsLayers(Layered(n, below), t, p);
    } else {
      var k := |above| - 1;
      MergeInside(n, below, t, p, above[..k]);
      assert (merged + above)[..|merged + above| - 1] == merged + above[..k];
      assert (two + above)[..|two + above| - 1] == two + above[..k];
    }
  }
}
