/** The circuit breaker (policy/circuit-breaker.ts). A protected call is two operations, its
    admission and its outcome; calls overlap, so the two come in any order with those of others. */
module Breakers {

  datatype Policy = Policy(failureThreshold: int, slidingWindowSize: nat, openDurationMs: int, halfOpenMaxCalls: int)

  datatype Status = Closed | Open | HalfOpen

  /** The fields of a breaker, and every outcome recorded since the window was last cleared. */
  datatype State = State(
    status: Status,
    openedAt: int,
    window: seq<bool>,
    halfOpenInFlight: int,
    halfOpenSuccesses: int,
    recorded: seq<bool>)

  datatype Op =
    | Admit(now: int)
    | Succeed(now: int)
    | Fail(now: int)
    | Invalid(now: int)
    | GetStatus(now: int)

  datatype Event = Started(at: int) | Refused(at: int) | Tripped(at: int) | Reclosed(at: int) | Nothing

  function Last(outcomes: seq<bool>, n: nat): seq<bool> {
    if |outcomes| <= n then outcomes else outcomes[|outcomes| - n..]
  }

  function Failures(outcomes: seq<bool>): nat {
    if outcomes == [] then 0
    else Failures(outcomes[..|outcomes| - 1]) + (if outcomes[|outcomes| - 1] then 0 else 1)
  }

  function Reset(): State {
    State(Closed, 0, [], 0, 0, [])
  }

  function Trip(now: int): State {
    State(Open, now, [], 0, 0, [])
  }

  function AfterTimer(p: Policy, s: State, now: int): State {
    if s.status == Open && now - s.openedAt >= p.openDurationMs
    then s.(status := HalfOpen, halfOpenInFlight := 0, halfOpenSuccesses := 0)
    else s
  }

  function Push(p: Policy, s: State, ok: bool): State {
    s.(window := Last(s.window + [ok], p.slidingWindowSize), recorded := s.recorded + [ok])
  }

  function Less1(n: int): int {
    if n > 1 then n - 1 else 0
  }

  function Step(p: Policy, s: State, op: Op): (State, Event) {
    match op
    case GetStatus(now) => (AfterTimer(p, s, now), Nothing)
    case Admit(now) =>
      var t := AfterTimer(p, s, now);
      if t.status == Open || (t.status == HalfOpen && t.halfOpenInFlight >= p.halfOpenMaxCalls) then (t, Refused(now))
      else (if t.status == HalfOpen then t.(halfOpenInFlight := t.halfOpenInFlight + 1) else t, Started(now))
    case Succeed(now) =>
      if s.status != HalfOpen then (Push(p, s, true), Nothing)
      else if s.halfOpenSuccesses + 1 >= p.halfOpenMaxCalls then (Reset(), Reclosed(now))
      else (s.(halfOpenInFlight := Less1(s.halfOpenInFlight), halfOpenSuccesses := s.halfOpenSuccesses + 1), Nothing)
    case Fail(now) =>
      var pushed := Push(p, s, false);
      if s.status == HalfOpen || Failures(pushed.window) >= p.failureThreshold then (Trip(now), Tripped(now))
      else (pushed, Nothing)
    case Invalid(now) =>
      (if s.status == HalfOpen then s.(halfOpenInFlight := Less1(s.halfOpenInFlight)) else s, Nothing)
  }

  ghost predicate Valid(p: Policy, s: State) {
    && s.window == Last(s.recorded, p.slidingWindowSize)
    && Failures(s.window) < p.failureThreshold
    && (s.status == HalfOpen ==>
          && 0 <= s.halfOpenInFlight && (s.halfOpenInFlight == 0 || s.halfOpenInFlight <= p.halfOpenMaxCalls)
          && 0 <= s.halfOpenSuccesses && (s.halfOpenSuccesses == 0 || s.halfOpenSuccesses < p.halfOpenMaxCalls))
  }

  lemma LastOfMore(outcomes: seq<bool>, n: nat, ok: bool)
    ensures Last(Last(outcomes, n) + [ok], n) == Last(outcomes + [ok], n)
  {
    if |outcomes| > n && n > 0 {
      assert (outcomes[|outcomes| - n..] + [ok])[1..] == (outcomes + [ok])[|outcomes| + 1 - n..];
    }
  }

  lemma {:induction false} FailuresOfTail(outcomes: seq<bool>, from: nat)
    requires from <= |outcomes|
    ensures Failures(outcomes[from..]) <= Failures(outcomes)
  {
    if from < |outcomes| {
      FailuresOfTail(outcomes[..|outcomes| - 1], from);
      assert outcomes[from..][..|outcomes| - from - 1] == outcomes[..|outcomes| - 1][from..];
    }
  }

  lemma FailuresOfPush(outcomes: seq<bool>, n: nat, ok: bool)
    ensures Failures(Last(outcomes + [ok], n)) <= Failures(outcomes) + (if ok then 0 else 1)
  {
    assert (outcomes + [ok])[..|outcomes|] == outcomes;
    if |outcomes| + 1 > n { FailuresOfTail(outcomes + [ok], |outcomes| + 1 - n); }
  }

  /** Main result, one operation: the window is the last outcomes recorded since it was cleared and
      holds fewer failures than the threshold. */
  lemma StepKeepsValid(p: Policy, s: State, op: Op)
    requires p.failureThreshold >= 1 && Valid(p, s)
    ensures Valid(p, Step(p, s, op).0)
  {
    LastOfMore(s.recorded, p.slidingWindowSize, true);
    LastOfMore(s.recorded, p.slidingWindowSize, false);
    FailuresOfPush(s.window, p.slidingWindowSize, true);
  }

  /** Outside half-open, the breaker trips exactly when a failure brings the last outcomes to the
      threshold, and then exactly to the threshold. In half-open every failure trips. */
  lemma TripsAtThreshold(p: Policy, s: State, op: Op)
    requires Valid(p, s)
    ensures Step(p, s, op).1.Tripped? <==>
      op.Fail? && (s.status == HalfOpen || Failures(Last(s.recorded + [false], p.slidingWindowSize)) == p.failureThreshold)
  {
    LastOfMore(s.recorded, p.slidingWindowSize, false);
    FailuresOfPush(s.window, p.slidingWindowSize, false);
  }

  /** A new policy changes neither the window nor the counters. The invariant survives exactly when
      they fit it already, and the window is neither too long for the new size nor was cut shorter
      than it. */
  lemma PolicyChangeIff(p: Policy, q: Policy, s: State)
    requires Valid(p, s)
    ensures Valid(q, s) <==>
      && Failures(s.window) < q.failureThreshold
      && (q.slidingWindowSize == p.slidingWindowSize
          || (|s.recorded| <= p.slidingWindowSize && |s.recorded| <= q.slidingWindowSize))
      && (s.status == HalfOpen ==>
            && (s.halfOpenInFlight == 0 || s.halfOpenInFlight <= q.halfOpenMaxCalls)
            && (s.halfOpenSuccesses == 0 || s.halfOpenSuccesses < q.halfOpenMaxCalls))
  {
    assert |s.window| == if |s.recorded| <= p.slidingWindowSize then |s.recorded| else p.slidingWindowSize;
  }

  function PushAll(p: Policy, s: State, oks: seq<bool>): State
    decreases |oks|
  {
    if oks == [] then s else Push(p, PushAll(p, s, oks[..|oks| - 1]), oks[|oks| - 1])
  }

  lemma LastOfTail(a: seq<bool>, b: seq<bool>, n: nat)
    requires |b| >= n
    ensures Last(a + b, n) == Last(b, n)
  {
    if n < |b| || a != [] { assert (a + b)[|a + b| - n..] == b[|b| - n..]; } else { assert a + b == b; }
    if n == |b| { assert b[0..] == b; }
  }

  lemma {:induction false} PushedWindow(p: Policy, s: State, oks: seq<bool>)
    ensures PushAll(p, s, oks).recorded == s.recorded + oks
    ensures oks != [] ==> PushAll(p, s, oks).window == Last(s.window + oks, p.slidingWindowSize)
    decreases |oks|
  {
    if oks != [] {
      var n := |oks| - 1;
      PushedWindow(p, s, oks[..n]);
      assert oks[..n] + [oks[n]] == oks;
      assert s.recorded + oks[..n] + [oks[n]] == s.recorded + oks && s.window + oks[..n] + [oks[n]] == s.window + oks;
      LastOfMore(s.window + oks[..n], p.slidingWindowSize, oks[n]);
      if n == 0 { assert s.window + [] == s.window; }
    }
  }

  /** Under a new policy the window is the last outcomes again as soon as as many outcomes as it holds
      have been recorded, whatever it held before. */
  lemma WindowCatchesUp(q: Policy, s: State, oks: seq<bool>)
    requires |oks| >= q.slidingWindowSize && oks != []
    ensures PushAll(q, s, oks).window == Last(PushAll(q, s, oks).recorded, q.slidingWindowSize)
  {
    PushedWindow(q, s, oks);
    LastOfTail(s.window, oks, q.slidingWindowSize);
    LastOfTail(s.recorded, oks, q.slidingWindowSize);
  }

  // ---- Runs ----

  /** The state and the events after `ops`. */
  function Run(p: Policy, s: State, ops: seq<Op>): (State, seq<Event>)
    decreases |ops|
  {
    if ops == [] then (s, [])
    else
      var before := Run(p, s, ops[..|ops| - 1]);
      var now := Step(p, before.0, ops[|ops| - 1]);
      (now.0, before.1 + [now.1])
  }

  predicate Monotone(ops: seq<Op>) {
    forall i, j :: 0 <= i <= j < |ops| ==> ops[i].now <= ops[j].now
  }

  lemma {:induction false} RunKeepsValid(p: Policy, ops: seq<Op>)
    requires p.failureThreshold >= 1
    ensures Valid(p, Run(p, Reset(), ops).0)
    decreases |ops|
  {
    if ops != [] {
      RunKeepsValid(p, ops[..|ops| - 1]);
      StepKeepsValid(p, Run(p, Reset(), ops[..|ops| - 1]).0, ops[|ops| - 1]);
    }
  }

  /** While open, the breaker was opened by its last trip; otherwise the last trip is at least
      `openDurationMs` ago. */
  ghost predicate Cooled(p: Policy, s: State, events: seq<Event>, now: int) {
    forall i :: 0 <= i < |events| && events[i].Tripped? ==>
      && events[i].at <= now
      && if s.status == Open then events[i].at <= s.openedAt else now - events[i].at >= p.openDurationMs
  }

  lemma CooledStep(p: Policy, s: State, events: seq<Event>, before: int, op: Op)
    requires Cooled(p, s, events, before) && before <= op.now && (s.status == Open ==> s.openedAt <= before)
    ensures var (t, e) := Step(p, s, op);
      && Cooled(p, t, events + [e], op.now)
      && (t.status == Open ==> t.openedAt <= op.now)
      && (e.Started? ==> e.at == op.now && forall i :: 0 <= i < |events| && events[i].Tripped? ==> op.now - events[i].at >= p.openDurationMs)
  {
    var (t, e) := Step(p, s, op);
    forall i | 0 <= i < |events + [e]| && (events + [e])[i].Tripped?
      ensures (events + [e])[i].at <= op.now
      ensures if t.status == Open then (events + [e])[i].at <= t.openedAt else op.now - (events + [e])[i].at >= p.openDurationMs
    {
      if i < |events| { assert (events + [e])[i] == events[i]; }
    }
  }

  lemma {:induction false} RunIsCooled(p: Policy, ops: seq<Op>, now: int)
    requires Monotone(ops) && forall i :: 0 <= i < |ops| ==> ops[i].now <= now
    ensures |Run(p, Reset(), ops).1| == |ops|
    ensures var (s, events) := Run(p, Reset(), ops);
      && Cooled(p, s, events, now) && (s.status == Open ==> s.openedAt <= now)
      && forall i :: 0 <= i < |events| && (events[i].Started? || events[i].Tripped?) ==> events[i].at == ops[i].now
    decreases |ops|
  {
    if ops != [] {
      var n := |ops| - 1;
      RunIsCooled(p, ops[..n], ops[n].now);
      var (s, events) := Run(p, Reset(), ops[..n]);
      CooledStep(p, s, events, ops[n].now, ops[n]);
    }
  }

  /** Main result: with a clock that does not go back, no protected call starts earlier than
      `openDurationMs` after any trip, whatever calls begun before the trip do later. */
  lemma {:induction false} NoEarlyStart(p: Policy, ops: seq<Op>, i: nat, j: nat)
    requires Monotone(ops) && i < j < |ops|
    ensures |Run(p, Reset(), ops).1| == |ops|
    ensures var events := Run(p, Reset(), ops).1;
      events[i].Tripped? && events[j].Started? ==> events[j].at - events[i].at >= p.openDurationMs
    decreases |ops|
  {
    var n := |ops| - 1;
    RunIsCooled(p, ops, ops[n].now);
    RunIsCooled(p, ops[..n], ops[n].now);
    if j == n {
      var (s, events) := Run(p, Reset(), ops[..n]);
      CooledStep(p, s, events, ops[n].now, ops[n]);
    } else {
      NoEarlyStart(p, ops[..n], i, j);
    }
  }

  // ---- What the breaker does, told from the history alone ----

  /** The last trip is the i-th event, and the breaker has not closed since. */
  ghost predicate BrokenBy(events: seq<Event>, i: nat) {
    i < |events| && events[i].Tripped? && forall j :: i < j < |events| ==> !events[j].Tripped? && !events[j].Reclosed?
  }

  ghost predicate Broken(events: seq<Event>) {
    exists i: nat :: BrokenBy(events, i)
  }

  /** After the i-th operation the timer was looked at when the wait was over: probing began. */
  ghost predicate Probing(p: Policy, ops: seq<Op>, i: nat) {
    exists e :: 0 <= i < e < |ops| && Looks(p, ops[i], ops[e])
  }

  predicate Looks(p: Policy, trip: Op, op: Op) {
    (op.Admit? || op.GetStatus?) && op.now - trip.now >= p.openDurationMs
  }

  /** The probes started since the i-th operation that no success or validation error has ended. */
  function Probes(ops: seq<Op>, events: seq<Event>, i: nat): int
    requires |ops| == |events|
    decreases |ops|
  {
    var n := |ops| - 1;
    if n <= i then 0
    else
      var before := Probes(ops[..n], events[..n], i);
      if events[n].Started? then before + 1
      else if (ops[n].Succeed? || ops[n].Invalid?) && before > 0 then before - 1
      else before
  }

  /** The successes since probing began. */
  ghost function Successes(p: Policy, ops: seq<Op>, i: nat): int
    decreases |ops|
  {
    var n := |ops| - 1;
    if n <= i then 0
    else Successes(p, ops[..n], i) + (if ops[n].Succeed? && Probing(p, ops[..n], i) then 1 else 0)
  }

  /** The outcomes since the breaker last tripped or closed; those of probes do not count. */
  ghost function Outcomes(p: Policy, ops: seq<Op>, events: seq<Event>): seq<bool>
    requires |ops| == |events|
    decreases |ops|
  {
    if ops == [] then []
    else
      var n := |ops| - 1;
      if events[n].Tripped? || events[n].Reclosed? then []
      else Outcomes(p, ops[..n], events[..n]) + Outcome(p, ops[..n], events[..n], ops[n])
  }

  ghost function Outcome(p: Policy, ops: seq<Op>, events: seq<Event>, op: Op): seq<bool> {
    if op.Fail? then [false]
    else if op.Succeed? && !(exists i: nat :: BrokenBy(events, i) && Probing(p, ops, i)) then [true]
    else []
  }

  /** The fields of the breaker, as the history tells them. */
  ghost predicate Tells(p: Policy, ops: seq<Op>, events: seq<Event>, s: State) {
    && |events| == |ops|
    && (s.status != Closed <==> Broken(events))
    && s.recorded == Outcomes(p, ops, events)
    && forall i: nat :: BrokenBy(events, i) ==> TellsTrip(p, ops, events, i, s)
  }

  ghost predicate TellsTrip(p: Policy, ops: seq<Op>, events: seq<Event>, i: nat, s: State)
    requires |events| == |ops| && i < |ops|
  {
    && s.openedAt == ops[i].now
    && (s.status == HalfOpen <==> Probing(p, ops, i))
    && Probes(ops, events, i) == (if s.status == HalfOpen then s.halfOpenInFlight else 0)
    && Successes(p, ops, i) == (if s.status == HalfOpen then s.halfOpenSuccesses else 0)
  }

  lemma {:induction false} BrokenStep(events: seq<Event>, e: Event, i: nat)
    ensures BrokenBy(events + [e], i) <==>
      if e.Tripped? then i == |events| else !e.Reclosed? && BrokenBy(events, i)
  {
    var more := events + [e];
    assert more[|events|] == e;
    if BrokenBy(more, i) && i < |events| {
      assert forall j :: i < j < |events| ==> more[j] == events[j];
      assert more[i] == events[i];
    }
  }

  lemma {:induction false} ProbingStep(p: Policy, ops: seq<Op>, op: Op, i: nat)
    requires i < |ops|
    ensures Probing(p, ops + [op], i) <==> Probing(p, ops, i) || Looks(p, ops[i], op)
  {
    var more := ops + [op];
    if Probing(p, ops, i) {
      var e :| i < e < |ops| && Looks(p, ops[i], ops[e]);
      assert more[e] == ops[e];
    }
    if Looks(p, ops[i], op) { assert more[|ops|] == op; }
    if Probing(p, more, i) {
      var e :| i < e < |more| && Looks(p, more[i], more[e]);
      if e < |ops| { assert more[e] == ops[e]; }
    }
  }

  lemma {:induction false} CountsStep(p: Policy, ops: seq<Op>, events: seq<Event>, op: Op, e: Event, i: nat)
    requires |ops| == |events|
    ensures Probes(ops + [op], events + [e], i) ==
      if |ops| <= i then 0
      else if e.Started? then Probes(ops, events, i) + 1
      else if (op.Succeed? || op.Invalid?) && Probes(ops, events, i) > 0 then Probes(ops, events, i) - 1
      else Probes(ops, events, i)
    ensures Successes(p, ops + [op], i) ==
      if |ops| <= i then 0 else Successes(p, ops, i) + (if op.Succeed? && Probing(p, ops, i) then 1 else 0)
    ensures Outcomes(p, ops + [op], events + [e]) ==
      if e.Tripped? || e.Reclosed? then [] else Outcomes(p, ops, events) + Outcome(p, ops, events, op)
  {
    assert (ops + [op])[..|ops|] == ops && (events + [e])[..|ops|] == events;
    assert (ops + [op])[|ops|] == op && (events + [e])[|ops|] == e;
  }

  lemma {:induction false} OneTrip(events: seq<Event>, i: nat, j: nat)
    requires BrokenBy(events, i) && BrokenBy(events, j)
    ensures i == j
  {}

  /** One operation, from a state that the history tells. */
  lemma {:induction false} TellsStep(p: Policy, ops: seq<Op>, events: seq<Event>, s: State, op: Op)
    requires Tells(p, ops, events, s) && (s.status == HalfOpen ==> s.halfOpenInFlight >= 0)
    ensures var (t, e) := Step(p, s, op);
      Tells(p, ops + [op], events + [e], t) && (t.status == HalfOpen ==> t.halfOpenInFlight >= 0)
  {
    var (t, e) := Step(p, s, op);
    var more, all := events + [e], ops + [op];
    forall i: nat ensures BrokenBy(more, i) <==> if e.Tripped? then i == |events| else !e.Reclosed? && BrokenBy(events, i) {
      BrokenStep(events, e, i);
    }
    if e.Tripped? { assert BrokenBy(more, |events|); }
    CountsStep(p, ops, events, op, e, 0);
    ProbeOutcomes(p, ops, events, s);
    forall i: nat | BrokenBy(more, i) ensures TellsTrip(p, all, more, i, t) {
      CountsStep(p, ops, events, op, e, i);
      if i < |ops| {
        assert TellsTrip(p, ops, events, i, s);
        ProbingStep(p, ops, op, i);
        assert all[i] == ops[i];
      } else {
        assert all[i] == op;
      }
    }
    TellsClosed(p, events, s, op);
  }

  lemma {:induction false} ProbeOutcomes(p: Policy, ops: seq<Op>, events: seq<Event>, s: State)
    requires Tells(p, ops, events, s)
    ensures (exists i: nat :: BrokenBy(events, i) && Probing(p, ops, i)) <==> s.status == HalfOpen
  {
    if s.status == HalfOpen {
      var i: nat :| BrokenBy(events, i);
      assert TellsTrip(p, ops, events, i, s);
    }
    if i: nat :| BrokenBy(events, i) && Probing(p, ops, i) { assert TellsTrip(p, ops, events, i, s); }
  }

  lemma {:induction false} TellsClosed(p: Policy, events: seq<Event>, s: State, op: Op)
    requires s.status != Closed <==> Broken(events)
    ensures var (t, e) := Step(p, s, op); t.status != Closed <==> Broken(events + [e])
  {
    var (t, e) := Step(p, s, op);
    forall i: nat ensures BrokenBy(events + [e], i) <==> if e.Tripped? then i == |events| else !e.Reclosed? && BrokenBy(events, i) {
      BrokenStep(events, e, i);
    }
    if e.Tripped? { assert BrokenBy(events + [e], |events|); }
    if s.status != Closed {
      var i: nat :| BrokenBy(events, i);
      assert !e.Reclosed? && !e.Tripped? ==> BrokenBy(events + [e], i);
    }
  }

  lemma {:induction false} RunTells(p: Policy, ops: seq<Op>)
    ensures var (s, events) := Run(p, Reset(), ops);
      Tells(p, ops, events, s) && (s.status == HalfOpen ==> s.halfOpenInFlight >= 0)
    decreases |ops|
  {
    if ops != [] {
      var n := |ops| - 1;
      RunTells(p, ops[..n]);
      var (s, events) := Run(p, Reset(), ops[..n]);
      TellsStep(p, ops[..n], events, s, ops[n]);
      assert ops[..n] + [ops[n]] == ops;
    }
  }

  /** What the next operation does after the history `ops`. */
  function Next(p: Policy, ops: seq<Op>, op: Op): Event {
    Step(p, Run(p, Reset(), ops).0, op).1
  }

  /** Main result on admissions, the other half of NoEarlyStart: an admission is refused exactly when
      the breaker tripped, has not closed since, and either the wait is not over or as many probes as
      allowed are in flight. Every other one starts. */
  lemma {:induction false} RefusedIff(p: Policy, ops: seq<Op>, now: int)
    requires Monotone(ops + [Admit(now)])
    ensures var events := Run(p, Reset(), ops).1; var e := Next(p, ops, Admit(now));
      && |events| == |ops|
      && (e == Refused(now) <==>
            exists i: nat :: BrokenBy(events, i)
              && (now - ops[i].now < p.openDurationMs || Probes(ops, events, i) >= p.halfOpenMaxCalls))
      && (e != Refused(now) ==> e == Started(now))
  {
    var (s, events) := Run(p, Reset(), ops);
    RunTells(p, ops);
    if i: nat :| BrokenBy(events, i) {
      assert TellsTrip(p, ops, events, i, s);
      forall j: nat | BrokenBy(events, j) ensures i == j { OneTrip(events, i, j); }
      NotLooked(p, ops, now, i);
    }
  }

  /** With a clock that does not go back, probing has not begun before the wait is over. */
  lemma {:induction false} NotLooked(p: Policy, ops: seq<Op>, now: int, i: nat)
    requires Monotone(ops + [Admit(now)]) && i < |ops|
    ensures Probing(p, ops, i) ==> now - ops[i].now >= p.openDurationMs
  {
    if Probing(p, ops, i) {
      var e :| i < e < |ops| && Looks(p, ops[i], ops[e]);
      assert (ops + [Admit(now)])[e] == ops[e] && (ops + [Admit(now)])[|ops|] == Admit(now);
    }
  }

  /** Main result on recovery: the breaker closes exactly at a success while probing that brings the
      successes to the number of probes allowed, and every later admission starts until it trips. */
  lemma {:induction false} ClosesIff(p: Policy, ops: seq<Op>, op: Op)
    ensures var events := Run(p, Reset(), ops).1;
      && |events| == |ops|
      && (Next(p, ops, op).Reclosed? <==>
            op.Succeed? && exists i: nat :: BrokenBy(events, i) && Probing(p, ops, i) && Successes(p, ops, i) + 1 >= p.halfOpenMaxCalls)
      && forall i: nat :: BrokenBy(events, i) && p.halfOpenMaxCalls >= 1 ==> Successes(p, ops, i) < p.halfOpenMaxCalls
  {
    var (s, events) := Run(p, Reset(), ops);
    RunTells(p, ops);
    FewSuccesses(p, ops);
    if i: nat :| BrokenBy(events, i) {
      assert TellsTrip(p, ops, events, i, s);
      forall j: nat | BrokenBy(events, j) ensures i == j { OneTrip(events, i, j); }
    }
  }

  lemma {:induction false} FewSuccesses(p: Policy, ops: seq<Op>)
    ensures var s := Run(p, Reset(), ops).0;
      s.status == HalfOpen && p.halfOpenMaxCalls >= 1 ==> s.halfOpenSuccesses < p.halfOpenMaxCalls
    decreases |ops|
  {
    if ops != [] { FewSuccesses(p, ops[..|ops| - 1]); }
  }

  /** Main result on trips: a failure trips the breaker exactly while probing, or when it brings the
      failures among the last outcomes to the threshold; nothing else trips it. */
  lemma {:induction false} TripsIff(p: Policy, ops: seq<Op>, op: Op)
    ensures var events := Run(p, Reset(), ops).1;
      && |events| == |ops|
      && (Next(p, ops, op).Tripped? <==>
            op.Fail? && ((exists i: nat :: BrokenBy(events, i) && Probing(p, ops, i))
                         || Failures(Last(Outcomes(p, ops, events) + [false], p.slidingWindowSize)) >= p.failureThreshold))
  {
    var (s, events) := Run(p, Reset(), ops);
    RunTells(p, ops);
    ProbeOutcomes(p, ops, events, s);
    WindowIsLast(p, ops);
    LastOfMore(s.recorded, p.slidingWindowSize, false);
  }

  lemma {:induction false} WindowIsLast(p: Policy, ops: seq<Op>)
    ensures var s := Run(p, Reset(), ops).0; s.window == Last(s.recorded, p.slidingWindowSize)
    decreases |ops|
  {
    if ops != [] {
      WindowIsLast(p, ops[..|ops| - 1]);
      WindowStep(p, Run(p, Reset(), ops[..|ops| - 1]).0, ops[|ops| - 1]);
    }
  }

  lemma {:induction false} WindowStep(p: Policy, s: State, op: Op)
    requires s.window == Last(s.recorded, p.slidingWindowSize)
    ensures Step(p, s, op).0.window == Last(Step(p, s, op).0.recorded, p.slidingWindowSize)
  {
    LastOfMore(s.recorded, p.slidingWindowSize, true);
    LastOfMore(s.recorded, p.slidingWindowSize, false);
  }

  // ---- The class ----

  class CircuitBreaker {
    var policy: Policy
    var status: Status
    var openedAt: int
    var outcomesWindow: seq<bool>
    var halfOpenInFlight: int
    var halfOpenSuccesses: int
    ghost var recorded: seq<bool>

    ghost function Now(): State reads this {
      State(status, openedAt, outcomesWindow, halfOpenInFlight, halfOpenSuccesses, recorded)
    }

    constructor (p: Policy)
      ensures policy == p && Now() == Reset()
    {
      policy, status, openedAt, outcomesWindow := p, Closed, 0, [];
      halfOpenInFlight, halfOpenSuccesses, recorded := 0, 0, [];
    }

    method UpdatePolicy(p: Policy)
      modifies this`policy
      ensures policy == p
    {
      policy := p;
    }

    method ResetBreaker()
      modifies this
      ensures policy == old(policy) && Now() == Reset()
    {
      status, openedAt, outcomesWindow := Closed, 0, [];
      halfOpenInFlight, halfOpenSuccesses, recorded := 0, 0, [];
    }

    method EvaluateTimerTransition(now: int)
      modifies this`status, this`halfOpenInFlight, this`halfOpenSuccesses
      ensures Now() == AfterTimer(policy, old(Now()), now)
    {
      if status == Open && now - openedAt >= policy.openDurationMs {
        status, halfOpenInFlight, halfOpenSuccesses := HalfOpen, 0, 0;
      }
    }

    method CurrentStatus(now: int) returns (s: Status)
      modifies this
      ensures policy == old(policy) && Now() == Step(policy, old(Now()), GetStatus(now)).0 && s == status
    {
      EvaluateTimerTransition(now);
      s := status;
    }

    /** The part of execute before the call; CircuitOpenError when it is not admitted. */
    method TryStart(now: int) returns (admitted: bool)
      modifies this
      ensures policy == old(policy) && Now() == Step(policy, old(Now()), Admit(now)).0
      ensures admitted <==> Step(policy, old(Now()), Admit(now)).1.Started?
    {
      EvaluateTimerTransition(now);
      if status == Open { return false; }
      if status == HalfOpen {
        if halfOpenInFlight >= policy.halfOpenMaxCalls { return false; }
        halfOpenInFlight := halfOpenInFlight + 1;
      }
      admitted := true;
    }

    method OnSuccess(now: int)
      modifies this
      ensures policy == old(policy) && Now() == Step(policy, old(Now()), Succeed(now)).0
    {
      if status == HalfOpen {
        halfOpenInFlight := if halfOpenInFlight - 1 > 0 then halfOpenInFlight - 1 else 0;
        halfOpenSuccesses := halfOpenSuccesses + 1;
        if halfOpenSuccesses >= policy.halfOpenMaxCalls { ResetBreaker(); }
        return;
      }
      PushOutcome(true);
    }

    method OnFailure(now: int)
      modifies this
      ensures policy == old(policy) && Now() == Step(policy, old(Now()), Fail(now)).0
    {
      if status == HalfOpen {
        TripOpen(now);
        return;
      }
      PushOutcome(false);
      var failures := CountFailures(outcomesWindow);
      if failures >= policy.failureThreshold { TripOpen(now); }
    }

    /** A ValidationError says nothing about the callee's health. */
    method OnInvalid(now: int)
      modifies this`halfOpenInFlight
      ensures Now() == Step(policy, old(Now()), Invalid(now)).0
    {
      if status == HalfOpen {
        halfOpenInFlight := if halfOpenInFlight - 1 > 0 then halfOpenInFlight - 1 else 0;
      }
    }

    method PushOutcome(ok: bool)
      modifies this`outcomesWindow, this`recorded
      ensures Now() == Push(policy, old(Now()), ok)
    {
      outcomesWindow := outcomesWindow + [ok];
      recorded := recorded + [ok];
      ghost var pushed := outcomesWindow;
      while |outcomesWindow| > policy.slidingWindowSize
        invariant recorded == old(recorded) + [ok]
        invariant Last(outcomesWindow, policy.slidingWindowSize) == Last(pushed, policy.slidingWindowSize)
      {
        outcomesWindow := outcomesWindow[1..];
      }
    }

    method TripOpen(now: int)
      modifies this
      ensures policy == old(policy) && Now() == Trip(now)
    {
      status, openedAt, outcomesWindow := Open, now, [];
      halfOpenInFlight, halfOpenSuccesses, recorded := 0, 0, [];
    }
  }

  method CountFailures(outcomes: seq<bool>) returns (n: nat)
    ensures n == Failures(outcomes)
  {
    n := 0;
    for i := 0 to |outcomes|
      invariant n == Failures(outcomes[..i])
    {
      assert outcomes[..i + 1][..i] == outcomes[..i];
      if !outcomes[i] { n := n + 1; }
    }
    assert outcomes[..|outcomes|] == outcomes;
  }
}
