/** What one transition call or recovery action writes (runtime/actor.ts,
    executeTransitionOnSnapshot and executeRecoverySweep), as functions of the record it started
    from and of what its handlers returned. */
module Calls {
  import opened Records
  import opened Machines
  import opened Engine
  import opened Matching
  import opened Completion
  import opened Stores

  /** `compensators` names the compensation handler bound to an edge, if it has one; `registered`
      holds the names that resolve to a handler. */
  datatype Actor = Actor(m: Machine, compensators: map<(Path, string), string>, registered: set<string>)

  /** What the pipeline bound to the matched edge at `source` returned: the handler's context and
      target, or a failure with the target of its onFail policy. */
  datatype Attempt<C> =
    | Succeeded(source: Path, given: Option<string>, context: C)
    | Failed(source: Path, fallback: string, compensate: bool)

  /** The local variables of the match loop. */
  datatype Local<C> = Local(value: StateValue, context: C, comps: seq<Comp<C>>)

  function Reference(x: Match, given: Option<string>): string {
    if given.Some? then given.value else x.edge.target
  }

  /** The configuration after a move; None when the source throws. */
  function Reached(m: Machine, v: StateValue, source: Path, ref: string): Option<StateValue> {
    if source == [] then None
    else match ApplyTarget(m, v, source, ref)
      case None => None
      case Some(applied) => Some(applied.next)
  }

  function Moved(m: Machine, v: StateValue, source: Path, ref: string): Option<StateValue> {
    if ref == "" then Some(v) else Reached(m, v, source, ref)
  }

  function Advance<C>(a: Actor, event: string, x: Match, attempt: Attempt<C>, now: Local<C>): Option<Local<C>> {
    match attempt
    case Failed(_, _, _) => None
    case Succeeded(source, given, context) =>
      match (if source == x.source then Moved(a.m, now.value, x.source, Reference(x, given)) else None)
      case None => None
      case Some(v) =>
        var bound := (x.source, event) in a.compensators;
        Some(Local(v, context,
          now.comps + (if bound then [Comp(a.compensators[(x.source, event)], now.value, now.context)] else [])))
  }

  /** The match loop, as long as the attempts succeed, for any loop body. */
  function Fold<C>(body: (Match, Attempt<C>, Local<C>) -> Option<Local<C>>, matches: seq<Match>, attempts: seq<Attempt<C>>, now: Local<C>)
    : Option<Local<C>>
    decreases |attempts|
  {
    if attempts == [] then Some(now)
    else if matches == [] then None
    else match body(matches[0], attempts[0], now)
      case None => None
      case Some(next) => Fold(body, matches[1..], attempts[1..], next)
  }

  function Body<C>(a: Actor, event: string): (Match, Attempt<C>, Local<C>) -> Option<Local<C>> {
    (x, attempt, now) => Advance(a, event, x, attempt, now)
  }

  function Work<C>(a: Actor, event: string, matches: seq<Match>, attempts: seq<Attempt<C>>, now: Local<C>): Option<Local<C>> {
    Fold(Body(a, event), matches, attempts, now)
  }

  lemma {:induction false} FoldExtends<C>(body: (Match, Attempt<C>, Local<C>) -> Option<Local<C>>, matches: seq<Match>,
                                          attempts: seq<Attempt<C>>, x: Attempt<C>, start: Local<C>)
    requires |attempts| < |matches|
    ensures var before := Fold(body, matches, attempts, start);
      Fold(body, matches, attempts + [x], start)
        == (if before.None? then None else body(matches[|attempts|], x, before.value))
    decreases |attempts|
  {
    if attempts == [] {
      assert (attempts + [x])[1..] == [];
    } else {
      assert (attempts + [x])[0] == attempts[0] && (attempts + [x])[1..] == attempts[1..] + [x];
      var next := body(matches[0], attempts[0], start);
      if next.Some? { FoldExtends(body, matches[1..], attempts[1..], x, next.value); }
    }
  }

  lemma WorkExtends<C>(a: Actor, event: string, matches: seq<Match>, attempts: seq<Attempt<C>>, x: Attempt<C>, start: Local<C>)
    requires |attempts| < |matches|
    ensures var before := Work(a, event, matches, attempts, start);
      Work(a, event, matches, attempts + [x], start)
        == (if before.None? then None else Advance(a, event, matches[|attempts|], x, before.value))
  {
    FoldExtends(Body(a, event), matches, attempts, x, start);
  }

  predicate AllSucceed<C>(attempts: seq<Attempt<C>>) {
    forall i :: 0 <= i < |attempts| ==> attempts[i].Succeeded?
  }

  /** The last context that some handler returned, or the one before all of them. */
  function Latest<C>(results: seq<Option<C>>, start: C): C
    decreases |results|
  {
    if results == [] then start
    else if results[|results| - 1].Some? then results[|results| - 1].value
    else Latest(results[..|results| - 1], start)
  }

  /** How often the cascade asks an `onDone` handler. */
  function HandlerRuns(c: Cascaded): nat {
    c.taken + (if c.stop == Untargeted then 1 else 0)
  }

  /** The version-checked updates a worker makes. */
  datatype Act<C> =
    | Create
    | Begin(event: string)
    | Append(event: string, attempts: seq<Attempt<C>>)
    | Compensate
    | Succeed(event: string, attempts: seq<Attempt<C>>, dones: seq<Option<C>>)
    | Fail(event: string, attempts: seq<Attempt<C>>, results: seq<Option<C>>)
    | MarkFail
    | Recover(results: seq<Option<C>>)
    | Unlock

  datatype Change<C> = Change(patch: Patch<C>, comps: seq<Comp<C>>)

  function StatusOnly<C>(status: Status): Patch<C> {
    Patch(None, None, Some(status), None, None)
  }

  /** The end of a call: no active step and no lease. */
  function Settle<C>(state: StateValue, context: Option<C>, status: Status): Patch<C> {
    Patch(Some(state), context, Some(status), Some(None), Some(false))
  }

  function Before<C>(base: Row<C>): Local<C> {
    Local(base.state, base.context, [])
  }

  /** The successful attempts before the failed one, which is the last. */
  function UntilFailure<C>(a: Actor, base: Row<C>, event: string, attempts: seq<Attempt<C>>): Option<Local<C>>
    requires attempts != []
  {
    Work(a, event, ResolveTransitions(a.m, base.state, event), attempts[..|attempts| - 1], Before(base))
  }

  predicate FailsLast<C>(a: Actor, base: Row<C>, event: string, attempts: seq<Attempt<C>>) {
    && attempts != [] && attempts[|attempts| - 1].Failed?
    && |attempts| <= |ResolveTransitions(a.m, base.state, event)|
    && attempts[|attempts| - 1].source == ResolveTransitions(a.m, base.state, event)[|attempts| - 1].source
  }

  /** The patch that settles a failed call at the state its fallback led to. */
  function Fallen<C>(m: Machine, value: StateValue, context: C, compensated: bool): Patch<C> {
    Settle(value, Some(context), ResolveSettledStatus(m, value, compensated))
  }

  /** The end of a successful call, after its cascade. */
  function Settling<C>(m: Machine, now: Local<C>, c: Cascaded, dones: seq<Option<C>>): Option<Change<C>> {
    if c.stop == Unresolved || |dones| != HandlerRuns(c) then None
    else Some(Change(Settle(c.value, Some(Latest(dones, now.context)), ResolveSettledStatus(m, c.value, false)), now.comps))
  }

  /** The end of a failed call, after its unwinding. */
  function Falling<C>(m: Machine, now: Local<C>, source: Path, fallback: string, compensated: bool, results: seq<Option<C>>): Option<Change<C>> {
    match Reached(m, now.value, source, fallback)
    case None => None
    case Some(v) => Some(Change(Fallen(m, v, Latest(results, now.context), compensated), []))
  }

  /** The update a worker makes, from the record it started with and what its handlers returned.
      None when the source throws before the update, or makes none. */
  function WhatItWrites<C>(a: Actor, base: Row<C>, act: Act<C>): Option<Change<C>> {
    match act
    case Create => None
    case Begin(event) =>
      if ResolveTransitions(a.m, base.state, event) == [] then None
      else Some(Change(Patch(None, None, Some(InFlight), Some(Some(event)), Some(true)), []))
    case Append(event, attempts) =>
      if !FailsLast(a, base, event, attempts) then None
      else (match UntilFailure(a, base, event, attempts)
        case None => None
        case Some(now) =>
          if now.comps == [] then None else Some(Change(Patch(None, None, None, None, None), now.comps)))
    case Compensate => Some(Change(StatusOnly(Compensating), []))
    case Succeed(event, attempts, dones) =>
      var matches := ResolveTransitions(a.m, base.state, event);
      if |attempts| != |matches| then None
      else (match Work(a, event, matches, attempts, Before(base))
        case None => None
        case Some(now) => Settling(a.m, now, Cascade(a.m, now.value, CascadeLimit), dones))
    case Fail(event, attempts, results) =>
      if !FailsLast(a, base, event, attempts) || (|results| > 0 && !attempts[|attempts| - 1].compensate) then None
      else
        var k := |attempts| - 1;
        var failed := attempts[k];
        (match UntilFailure(a, base, event, attempts)
        case None => None
        case Some(now) => Falling(a.m, now, ResolveTransitions(a.m, base.state, event)[k].source, failed.fallback, failed.compensate, results))
    case MarkFail => Some(Change(Settle(Leaf(ErrorKey), None, Completion.Failed), []))
    case Recover(results) =>
      Some(Change(Settle(Leaf(ErrorKey), Some(Latest(results, base.context)), Compensated), []))
    case Unlock =>
      Some(Change(Patch(None, None, Some(Idle), if base.activeStep.Some? then Some(None) else None, Some(false)), []))
  }
}
