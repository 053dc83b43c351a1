/** executeTransitionOnSnapshot as it runs, on a store that no one else is using: the match loop,
    the failure branch with its unwinding, the cascade and the version-checked updates
    (runtime/actor.ts). Module Protocol interleaves the same updates. */
module CallLoops {
  import opened Records
  import opened Machines
  import opened Matching
  import opened Completion
  import opened EngineLoops
  import opened Stores
  import opened Calls
  import opened Protocol
  import opened ProtocolLaws
  import opened Traces
  import opened Saga

  /** The match loop. `handle` is what the pipelines return, given the working context, and `told` the
      effects their handlers ask for. The loop ends after the last match or a failed attempt; `now` is
      None when a target does not resolve. */
  method MatchLoop<C>(a: Actor, event: string, matches: seq<Match>, start: Local<C>, handle: (nat, C) -> Attempt<C>, told: nat -> seq<string>)
    returns (now: Option<Local<C>>, attempts: seq<Attempt<C>>, effects: seq<string>)
    ensures |attempts| <= |matches|
    ensures now.Some? && AllSucceed(attempts) ==> effects == PendingEffects(a, event, matches, attempts, told, start)
    ensures now.Some? && AllSucceed(attempts) ==> |attempts| == |matches| && now == Work(a, event, matches, attempts, start)
    ensures now.Some? && !AllSucceed(attempts) ==>
      && attempts != [] && attempts[|attempts| - 1].Failed?
      && attempts[|attempts| - 1].source == matches[|attempts| - 1].source
      && now == Work(a, event, matches, attempts[..|attempts| - 1], start)
  {
    attempts, effects := [], [];
    var workingState, workingContext, pending := start.value, start.context, start.comps;
    while |attempts| < |matches|
      invariant |attempts| <= |matches| && AllSucceed(attempts)
      invariant Work(a, event, matches, attempts, start) == Some(Local(workingState, workingContext, pending))
      invariant effects == PendingEffects(a, event, matches, attempts, told, start)
    {
      var served := matches[|attempts|];
      var attempt := handle(|attempts|, workingContext).(source := served.source);
      ghost var before := attempts;
      WorkExtends(a, event, matches, before, attempt, start);
      attempts := attempts + [attempt];
      assert attempts[..|attempts| - 1] == before;
      if attempt.Failed? {
        assert attempts[|attempts| - 1].Failed?;
        return Some(Local(workingState, workingContext, pending)), attempts, effects;
      }
      PendingLast(a, event, matches, before, attempt, told, start);
      var more;
      now, more := ApplyMatch(a, event, served, attempt, told(|attempts| - 1), Local(workingState, workingContext, pending));
      if now.None? { return; }
      effects := effects + more;
      workingState, workingContext, pending := now.value.value, now.value.context, now.value.comps;
    }
    now := Some(Local(workingState, workingContext, pending));
  }

  /** The branch of the loop body for a successful attempt. */
  method ApplyMatch<C>(a: Actor, event: string, x: Match, attempt: Attempt<C>, told: seq<string>, now: Local<C>)
    returns (next: Option<Local<C>>, effects: seq<string>)
    requires attempt.Succeeded? && attempt.source == x.source
    ensures next == Calls.Advance(a, event, x, attempt, now)
    ensures next.Some? ==> effects == StepEffects(a.m, x, attempt.given, told, now.value)
  {
    var state, pending := now.value, now.comps;
    effects := [];
    assert now.comps + [] == now.comps;
    var target := if attempt.given.Some? then attempt.given.value else x.edge.target;
    if target != "" {
      if x.source == [] { return None, []; }
      var applied := ApplyTargetTransition(a.m, state, x.source, target);
      if applied.None? { return None, []; }
      state := applied.value.next;
      effects := applied.value.exits + x.edge.effects + told + applied.value.entries;
    } else {
      effects := x.edge.effects + told;
    }
    if (x.source, event) in a.compensators {
      pending := pending + [Comp(a.compensators[(x.source, event)], now.value, now.context)];
    }
    next := Some(Local(state, attempt.context, pending));
  }

  /** How many of the first `k` matches have a compensator. */
  function BoundAmong(a: Actor, event: string, matches: seq<Match>, k: nat): nat
    requires k <= |matches|
  {
    if k == 0 then 0 else BoundAmong(a, event, matches, k - 1) + if (matches[k - 1].source, event) in a.compensators then 1 else 0
  }

  lemma {:induction false} AllAreBound(a: Actor, event: string, matches: seq<Match>, k: nat)
    requires k <= |matches| && forall j :: 0 <= j < k ==> (matches[j].source, event) in a.compensators
    ensures BoundAmong(a, event, matches, k) == k
  {
    if k > 0 { AllAreBound(a, event, matches, k - 1); }
  }

  /** Main result on what a call leaves for its compensators: one entry for each match that has one, in
      the order of the matches. The entry of step i holds the state and the context from before it. */
  lemma {:induction false} EntriesAreSnapshots<C>(a: Actor, event: string, matches: seq<Match>, attempts: seq<Attempt<C>>, start: Local<C>, i: nat)
    requires AllSucceed(attempts) && |attempts| <= |matches| && Work(a, event, matches, attempts, start).Some? && i < |attempts|
    ensures var now := Work(a, event, matches, attempts, start).value;
      var before := Work(a, event, matches, attempts[..i], start);
      && |now.comps| == |start.comps| + BoundAmong(a, event, matches, |attempts|) && start.comps <= now.comps
      && before.Some? && before.value.context == (if i == 0 then start.context else attempts[i - 1].context)
      && ((matches[i].source, event) in a.compensators ==>
            && BoundAmong(a, event, matches, i) < BoundAmong(a, event, matches, |attempts|)
            && now.comps[|start.comps| + BoundAmong(a, event, matches, i)]
               == Comp(a.compensators[(matches[i].source, event)], before.value.value, if i == 0 then start.context else attempts[i - 1].context))
    decreases |attempts|
  {
    var k := |attempts| - 1;
    var init := attempts[..k];
    assert init + [attempts[k]] == attempts;
    WorkExtends(a, event, matches, init, attempts[k], start);
    LastContext(a, event, matches, init, start);
    if i < k {
      EntriesAreSnapshots(a, event, matches, init, start, i);
      assert init[..i] == attempts[..i];
    } else {
      assert attempts[..i] == init;
    }
  }

  lemma {:induction false} LastContext<C>(a: Actor, event: string, matches: seq<Match>, attempts: seq<Attempt<C>>, start: Local<C>)
    requires AllSucceed(attempts) && |attempts| <= |matches| && Work(a, event, matches, attempts, start).Some?
    ensures var now := Work(a, event, matches, attempts, start).value;
      && now.context == (if attempts == [] then start.context else attempts[|attempts| - 1].context)
      && |now.comps| == |start.comps| + BoundAmong(a, event, matches, |attempts|) && start.comps <= now.comps
    decreases |attempts|
  {
    if attempts != [] {
      var k := |attempts| - 1;
      assert attempts[..k] + [attempts[k]] == attempts;
      WorkExtends(a, event, matches, attempts[..k], attempts[k], start);
      LastContext(a, event, matches, attempts[..k], start);
    }
  }

  /** What each handler of an unwinding returned. */
  function Results<C>(h: Handlers<C>, es: seq<Stores.Entry<C>>, ctx: C): seq<Option<C>>
    decreases |es|
  {
    if es == [] then []
    else
      [if es[0].item.comp.key in h.registered then h.run(es[0], ctx) else None]
      + Results(h, es[1..], Saga.Compensated(h, es[0], ctx))
  }

  lemma {:induction false} LatestOfRest<C>(x: Option<C>, rest: seq<Option<C>>, ctx: C)
    ensures Latest([x] + rest, ctx) == Latest(rest, Or(x, ctx))
    decreases |rest|
  {
    if rest == [] {
      assert [x] + rest == [x] && [x][..0] == [];
    } else {
      assert ([x] + rest)[..|rest|] == [x] + rest[..|rest| - 1];
      LatestOfRest(x, rest[..|rest| - 1], ctx);
    }
  }

  /** The context after an unwinding is the last one a handler returned. */
  lemma {:induction false} UnwoundIsLatest<C>(h: Handlers<C>, es: seq<Stores.Entry<C>>, ctx: C)
    ensures Latest(Results(h, es, ctx), ctx) == Unwound(h, es, ctx)
    decreases |es|
  {
    if es != [] {
      var x := if es[0].item.comp.key in h.registered then h.run(es[0], ctx) else None;
      var next := Saga.Compensated(h, es[0], ctx);
      UnwoundIsLatest(h, es[1..], next);
      LatestOfRest(x, Results(h, es[1..], next), ctx);
    }
  }

  /** The updates of a failed call after its first one. */
  function FailActs<C>(event: string, attempts: seq<Attempt<C>>, comps: seq<Comp<C>>, results: seq<Option<C>>): seq<Act<C>>
    requires attempts != [] && attempts[|attempts| - 1].Failed?
  {
    FlushActs(event, attempts, comps)
    + (if attempts[|attempts| - 1].compensate then [Compensate] else [])
    + [Fail(event, attempts, results)]
  }

  lemma AloneExtends<C>(writes: Rule<C>, row: Row<C>, acts: seq<Act<C>>, x: Act<C>)
    ensures Alone(writes, row, acts + [x])
      == var now := Alone(writes, row, acts);
         if now.None? || writes(now.value, x).None? then None
         else Some(Patched(now.value, writes(now.value, x).value.patch))
  {
    assert (acts + [x])[..|acts|] == acts && (acts + [x])[|acts|] == x;
  }

  /** The record after the updates `acts` of a call that started from `base`. */
  ghost predicate After<C(!new)>(a: Actor, base: Row<C>, acts: seq<Act<C>>, row: Row<C>) {
    Alone(Writes(a), base, acts) == Some(row)
  }

  ghost predicate SameDataAs<C(!new)>(base: Row<C>, row: Row<C>) {
    row.state == base.state && row.context == base.context
  }

  /** One update of a call whose updates so far, `acts`, left the data alone. */
  method Commit<C(!new)>(a: Actor, store: SqliteStore<C>, id: string, base: Row<C>, ver: nat,
                         ghost acts: seq<Act<C>>, ghost act: Act<C>, change: Change<C>)
    returns (next: nat)
    requires store.Valid() && id in store.Contents() && !act.Unlock?
    requires store.Contents()[id].row.version == ver && SameDataAs(base, store.Contents()[id].row)
    requires After(a, base, acts, store.Contents()[id].row) && WhatItWrites(a, base, act) == Some(change)
    modifies store
    ensures store.Valid() && next == ver + 1
    ensures store.Contents() == old(store.Contents())[id := UpdateTx(old(store.Contents())[id], change.patch, change.comps)]
    ensures After(a, base, acts + [act], store.Contents()[id].row) && store.Contents()[id].row.version == next
    ensures Preliminary(act) ==> SameDataAs(base, store.Contents()[id].row)
  {
    ghost var row := store.Contents()[id].row;
    SameData(a, base, row, act);
    AloneExtends(Writes(a), base, acts, act);
    if Preliminary(act) { PreliminaryPatch(a, base, act); }
    var version := store.UpdateTransaction(id, ver, change.patch, change.comps);
    next := version.value;
  }

  ghost predicate OthersKept<C(!new)>(id: string, before: map<string, Tx<C>>, now: map<string, Tx<C>>) {
    id in now && forall other :: other != id ==> (other in before <==> other in now) && (other in before ==> now[other] == before[other])
  }

  /** The call has made the updates `acts` and left the data as it read it. */
  ghost predicate InCall<C(!new)>(a: Actor, store: SqliteStore<C>, id: string, base: Row<C>, acts: seq<Act<C>>, ver: nat)
    reads store
  {
    && store.Valid() && id in store.Contents()
    && store.Contents()[id].row.version == ver && SameDataAs(base, store.Contents()[id].row)
    && After(a, base, acts, store.Contents()[id].row)
  }

  lemma AppendWrites<C>(a: Actor, base: Row<C>, event: string, attempts: seq<Attempt<C>>)
    requires FailsLast(a, base, event, attempts) && UntilFailure(a, base, event, attempts).Some?
    requires |UntilFailure(a, base, event, attempts).value.comps| > 0
    ensures WhatItWrites(a, base, Append(event, attempts))
      == Some(Change(Patch(None, None, None, None, None), UntilFailure(a, base, event, attempts).value.comps))
  {}

  /** Compensations collected before the failure are stored first. */
  method FlushComps<C(!new)>(a: Actor, store: SqliteStore<C>, id: string, base: Row<C>, version: nat, event: string,
                             attempts: seq<Attempt<C>>, comps: seq<Comp<C>>, ghost acts: seq<Act<C>>)
    returns (ver: nat)
    requires InCall(a, store, id, base, acts, version) && FailsLast(a, base, event, attempts)
    requires UntilFailure(a, base, event, attempts).Some? && UntilFailure(a, base, event, attempts).value.comps == comps
    modifies store
    ensures InCall(a, store, id, base, acts + FlushActs(event, attempts, comps), ver)
    ensures OthersKept(id, old(store.Contents()), store.Contents())
  {
    ver := version;
    if |comps| > 0 {
      AppendWrites(a, base, event, attempts);
      ver := Commit(a, store, id, base, ver, acts, Append(event, attempts), Change(Patch(None, None, None, None, None), comps));
    } else {
      assert acts + [] == acts;
    }
  }

  function FlushActs<C>(event: string, attempts: seq<Attempt<C>>, comps: seq<Comp<C>>): seq<Act<C>> {
    if |comps| > 0 then [Append(event, attempts)] else []
  }

  /** COMPENSATING, then the unwinding. */
  method UnwindCall<C(!new)>(a: Actor, store: SqliteStore<C>, id: string, base: Row<C>, version: nat, current: C,
                             h: Handlers<C>, ghost acts: seq<Act<C>>)
    returns (ver: nat, context: C, ghost results: seq<Option<C>>)
    requires InCall(a, store, id, base, acts, version)
    modifies store
    ensures InCall(a, store, id, base, acts + [Compensate], ver) && context == Latest(results, current)
    ensures OthersKept(id, old(store.Contents()), store.Contents())
    ensures AllDone(store.Contents()[id].stack)
  {
    ver := Commit(a, store, id, base, version, acts, Compensate, Change(StatusOnly(Compensating), []));
    ghost var pending := Uncompensated(store.Contents()[id].stack);
    var count;
    context, count := UnwindCompensationStack(store, id, current, h);
    results := Results(h, pending, current);
    UnwoundIsLatest(h, pending, current);
  }

  lemma FailWrites<C>(a: Actor, base: Row<C>, event: string, attempts: seq<Attempt<C>>, results: seq<Option<C>>, value: StateValue)
    requires FailsLast(a, base, event, attempts) && UntilFailure(a, base, event, attempts).Some?
    requires !attempts[|attempts| - 1].compensate ==> results == []
    requires Reached(a.m, UntilFailure(a, base, event, attempts).value.value,
                     ResolveTransitions(a.m, base.state, event)[|attempts| - 1].source, attempts[|attempts| - 1].fallback) == Some(value)
    ensures WhatItWrites(a, base, Fail(event, attempts, results))
      == Some(Change(Fallen(a.m, value, Latest(results, UntilFailure(a, base, event, attempts).value.context),
                            attempts[|attempts| - 1].compensate), []))
  {
    var k := |attempts| - 1;
    var source := ResolveTransitions(a.m, base.state, event)[k].source;
    FailIsFalling(a, base, event, attempts, results, UntilFailure(a, base, event, attempts).value, source);
    FallingIs(a.m, UntilFailure(a, base, event, attempts).value, source, attempts[k].fallback, attempts[k].compensate, results, value);
  }

  lemma FailIsFalling<C>(a: Actor, base: Row<C>, event: string, attempts: seq<Attempt<C>>, results: seq<Option<C>>, now: Local<C>, source: Path)
    requires FailsLast(a, base, event, attempts) && UntilFailure(a, base, event, attempts) == Some(now)
    requires !attempts[|attempts| - 1].compensate ==> results == []
    requires source == ResolveTransitions(a.m, base.state, event)[|attempts| - 1].source
    ensures WhatItWrites(a, base, Fail(event, attempts, results))
      == Falling(a.m, now, source, attempts[|attempts| - 1].fallback, attempts[|attempts| - 1].compensate, results)
  {}

  lemma FallingIs<C>(m: Machine, now: Local<C>, source: Path, fallback: string, compensated: bool, results: seq<Option<C>>, v: StateValue)
    requires Reached(m, now.value, source, fallback) == Some(v)
    ensures Falling(m, now, source, fallback, compensated, results) == Some(Change(Fallen(m, v, Latest(results, now.context), compensated), []))
  {}

  /** The fallback transition ends the call. Not ok when it does not resolve: the source throws. */
  method Fallback<C(!new)>(a: Actor, store: SqliteStore<C>, id: string, base: Row<C>, version: nat, event: string,
                           attempts: seq<Attempt<C>>, value: StateValue, context: C,
                           ghost acts: seq<Act<C>>, ghost results: seq<Option<C>>)
    returns (ok: bool, effects: seq<string>)
    requires InCall(a, store, id, base, acts, version)
    requires FailsLast(a, base, event, attempts) && UntilFailure(a, base, event, attempts).Some?
    requires UntilFailure(a, base, event, attempts).value.value == value
    requires context == Latest(results, UntilFailure(a, base, event, attempts).value.context)
    requires !attempts[|attempts| - 1].compensate ==> results == []
    modifies store
    ensures store.Valid() && OthersKept(id, old(store.Contents()), store.Contents())
    ensures ok ==> After(a, base, acts + [Fail(event, attempts, results)], store.Contents()[id].row)
    ensures ok ==> effects == FallbackEffects(a, base, event, attempts) && FellTo(a, base, event, attempts, store.Contents()[id].row.state)
    ensures !ok ==> SameDataAs(base, store.Contents()[id].row)
  {
    var failed := attempts[|attempts| - 1];
    var matches := ResolveTransitions(a.m, base.state, event);
    var source := matches[|attempts| - 1].source;
    if source == [] { return false, []; }
    var applied := ApplyTargetTransition(a.m, value, source, failed.fallback);
    if applied.None? { return false, []; }
    var next := applied.value.next;
    effects := applied.value.exits + applied.value.entries;
    FailWrites(a, base, event, attempts, results, next);
    var ver := Commit(a, store, id, base, version, acts, Fail(event, attempts, results), Change(Fallen(a.m, next, context, failed.compensate), []));
    ok := true;
  }

  lemma OthersKeptTwice<C(!new)>(id: string, before: map<string, Tx<C>>, between: map<string, Tx<C>>, now: map<string, Tx<C>>)
    requires OthersKept(id, before, between) && OthersKept(id, between, now)
    ensures OthersKept(id, before, now)
  {}

  /** The branch of a failed attempt: compensations first, then the unwinding if it is requested,
      then the fallback. */
  method FailCall<C(!new)>(a: Actor, store: SqliteStore<C>, id: string, base: Row<C>, version: nat, event: string,
                           attempts: seq<Attempt<C>>, now: Local<C>, h: Handlers<C>, ghost begun: seq<Act<C>>)
    returns (ok: bool, effects: seq<string>, ghost results: seq<Option<C>>)
    requires InCall(a, store, id, base, begun, version)
    requires FailsLast(a, base, event, attempts) && UntilFailure(a, base, event, attempts) == Some(now)
    modifies store
    ensures store.Valid() && OthersKept(id, old(store.Contents()), store.Contents())
    ensures ok ==> After(a, base, begun + FailActs(event, attempts, now.comps, results), store.Contents()[id].row)
    ensures ok ==> effects == FallbackEffects(a, base, event, attempts) && FellTo(a, base, event, attempts, store.Contents()[id].row.state)
    ensures !ok ==> SameDataAs(base, store.Contents()[id].row)
  {
    var ver := FlushComps(a, store, id, base, version, event, attempts, now.comps, begun);
    ghost var acts := begun + FlushActs(event, attempts, now.comps);
    ghost var flushed := store.Contents();
    if attempts[|attempts| - 1].compensate {
      var context;
      ver, context, results := UnwindCall(a, store, id, base, ver, now.context, h, acts);
      OthersKeptTwice(id, old(store.Contents()), flushed, store.Contents());
      flushed := store.Contents();
      ok, effects := Fallback(a, store, id, base, ver, event, attempts, now.value, context, acts + [Compensate], results);
    } else {
      results := [];
      ok, effects := Fallback(a, store, id, base, ver, event, attempts, now.value, now.context, acts, results);
    }
    OthersKeptTwice(id, old(store.Contents()), flushed, store.Contents());
    FailActsAre(event, attempts, now.comps, results, begun);
  }

  lemma FailActsAre<C>(event: string, attempts: seq<Attempt<C>>, comps: seq<Comp<C>>, results: seq<Option<C>>, begun: seq<Act<C>>)
    requires attempts != [] && attempts[|attempts| - 1].Failed?
    ensures begun + FailActs(event, attempts, comps, results)
      == (if attempts[|attempts| - 1].compensate
          then begun + FlushActs(event, attempts, comps) + [Compensate] + [Fail(event, attempts, results)]
          else begun + FlushActs(event, attempts, comps) + [Fail(event, attempts, results)])
  {}

  /** IN_FLIGHT, unless the snapshot already is. */
  method BeginCall<C(!new)>(a: Actor, store: SqliteStore<C>, id: string, base: Row<C>, event: string) returns (ver: nat)
    requires store.Valid() && id in store.Contents() && store.Contents()[id].row == base
    requires ResolveTransitions(a.m, base.state, event) != []
    modifies store
    ensures InCall(a, store, id, base, BeginActs(base, event), ver)
    ensures OthersKept(id, old(store.Contents()), store.Contents())
  {
    ver := base.version;
    if base.status != InFlight {
      ver := Commit(a, store, id, base, ver, [], Begin(event),
                    Change(Patch(None, None, Some(InFlight), Some(Some(event)), Some(true)), []));
      assert [] + [Begin(event)] == BeginActs(base, event);
    }
  }

  function BeginActs<C>(base: Row<C>, event: string): seq<Act<C>> {
    if base.status == InFlight then [] else [Begin(event)]
  }

  /** What the first `n` `onDone` handlers return. */
  function Asked<T>(done: nat -> T, n: nat): (r: seq<T>)
    ensures |r| == n && forall i :: 0 <= i < n ==> r[i] == done(i)
  {
    if n == 0 then [] else Asked(done, n - 1) + [done(n - 1)]
  }

  /** The cascade, then the one update that ends a successful call. `done` is what the `onDone`
      handlers return. Not ok when an `onDone` target does not resolve. */
  method SucceedCall<C(!new)>(a: Actor, store: SqliteStore<C>, id: string, base: Row<C>, version: nat, event: string,
                              attempts: seq<Attempt<C>>, now: Local<C>, done: nat -> Option<C>, doneTold: nat -> seq<string>,
                              ghost acts: seq<Act<C>>)
    returns (ok: bool, dones: seq<Option<C>>, effects: seq<string>)
    requires InCall(a, store, id, base, acts, version)
    requires |attempts| == |ResolveTransitions(a.m, base.state, event)|
    requires Work(a, event, ResolveTransitions(a.m, base.state, event), attempts, Before(base)) == Some(now)
    modifies store
    ensures store.Valid() && OthersKept(id, old(store.Contents()), store.Contents())
    ensures ok ==> After(a, base, acts + [Succeed(event, attempts, dones)], store.Contents()[id].row)
    ensures ok ==> effects == CascadeEffects(a.m, now.value, CascadeLimit, doneTold)
    ensures ok && AllSucceed(attempts) ==> SettledAt(a, base, event, attempts, |dones|, store.Contents()[id].row.state)
    ensures ok ==> dones == Asked(done, |dones|)
    ensures !ok ==> store.Contents() == old(store.Contents())
  {
    dones := [];
    var value, taken, stop;
    value, effects, taken, stop := RunCascade(a.m, now.value, CascadeLimit, doneTold);
    if stop == Unresolved { return false, dones, []; }
    dones := Asked(done, HandlerRuns(Cascaded(value, taken, stop)));
    var status := ResolveSettledStatus(a.m, value, false);
    SucceedWrites(a, base, event, attempts, now, dones);
    var ver := Commit(a, store, id, base, version, acts, Succeed(event, attempts, dones),
                      Change(Settle(value, Some(Latest(dones, now.context)), status), now.comps));
    ok := true;
  }

  lemma SucceedWrites<C>(a: Actor, base: Row<C>, event: string, attempts: seq<Attempt<C>>, now: Local<C>, dones: seq<Option<C>>)
    requires |attempts| == |ResolveTransitions(a.m, base.state, event)|
    requires Work(a, event, ResolveTransitions(a.m, base.state, event), attempts, Before(base)) == Some(now)
    requires Cascade(a.m, now.value, CascadeLimit).stop != Unresolved
    requires |dones| == HandlerRuns(Cascade(a.m, now.value, CascadeLimit))
    ensures var value := Cascade(a.m, now.value, CascadeLimit).value;
      WhatItWrites(a, base, Succeed(event, attempts, dones))
      == Some(Change(Settle(value, Some(Latest(dones, now.context)), ResolveSettledStatus(a.m, value, false)), now.comps))
  {
    SucceedIsSettling(a, base, event, attempts, now, dones);
    SettlingIs(a.m, now, Cascade(a.m, now.value, CascadeLimit), dones);
  }

  lemma SucceedIsSettling<C>(a: Actor, base: Row<C>, event: string, attempts: seq<Attempt<C>>, now: Local<C>, dones: seq<Option<C>>)
    requires |attempts| == |ResolveTransitions(a.m, base.state, event)|
    requires Work(a, event, ResolveTransitions(a.m, base.state, event), attempts, Before(base)) == Some(now)
    ensures WhatItWrites(a, base, Succeed(event, attempts, dones)) == Settling(a.m, now, Cascade(a.m, now.value, CascadeLimit), dones)
  {}

  lemma SettlingIs<C>(m: Machine, now: Local<C>, c: Cascaded, dones: seq<Option<C>>)
    requires c.stop != Unresolved && |dones| == HandlerRuns(c)
    ensures Settling(m, now, c, dones)
      == Some(Change(Settle(c.value, Some(Latest(dones, now.context)), ResolveSettledStatus(m, c.value, false)), now.comps))
  {}

  /** The updates of a whole call. */
  function CallActs<C>(base: Row<C>, event: string, attempts: seq<Attempt<C>>, comps: seq<Comp<C>>,
                       results: seq<Option<C>>, dones: seq<Option<C>>): seq<Act<C>> {
    BeginActs(base, event)
    + (if attempts != [] && attempts[|attempts| - 1].Failed? then FailActs(event, attempts, comps, results)
       else [Succeed(event, attempts, dones)])
  }

  /** executeTransitionOnSnapshot, undisturbed: the record it leaves is the one the updates of the
      protocol leave, and the effects are those of its steps and its cascade, or of its fallback alone.
      A call that throws leaves the state and the context as they were. */
  method ExecuteTransition<C(!new)>(a: Actor, store: SqliteStore<C>, id: string, event: string,
                                    handle: (nat, C) -> Attempt<C>, done: nat -> Option<C>, h: Handlers<C>,
                                    told: nat -> seq<string>, doneTold: nat -> seq<string>)
    returns (ok: bool, attempts: seq<Attempt<C>>, comps: seq<Comp<C>>, dones: seq<Option<C>>, effects: seq<string>,
             ghost results: seq<Option<C>>, ghost trace: Trace)
    requires store.Valid() && id in store.Contents()
    modifies store
    ensures store.Valid() && OthersKept(id, old(store.Contents()), store.Contents())
    ensures ok ==> After(a, old(store.Contents())[id].row,
      CallActs(old(store.Contents())[id].row, event, attempts, comps, results, dones), store.Contents()[id].row)
    ensures ok ==>
      && |attempts| <= |ResolveTransitions(a.m, old(store.Contents())[id].row.state, event)|
      && effects == CallEffects(a, old(store.Contents())[id].row, event, attempts, told, doneTold)
    ensures ok ==> Traced(a.m, old(store.Contents())[id].row.state, event, attempts, told, doneTold, |dones|,
                         store.Contents()[id].row.state, effects, trace)
    ensures ok ==> forall i :: 0 <= i < |dones| ==> dones[i] == done(i)
    ensures !ok ==> SameDataAs(old(store.Contents())[id].row, store.Contents()[id].row)
  {
    ok, attempts, comps, dones, effects, results, trace := false, [], [], [], [], [], Trace([], Leaf(""), []);
    var snapshot, stack := store.GetTransaction(id);
    var base := snapshot.value;
    var matches := ResolveTransitions(a.m, base.state, event);
    if matches == [] { return; }
    var ver := BeginCall(a, store, id, base, event);
    ghost var begun := store.Contents();
    var now;
    now, attempts, effects := MatchLoop(a, event, matches, Before(base), handle, told);
    if now.None? { return; }
    comps := now.value.comps;
    if attempts != [] && attempts[|attempts| - 1].Failed? {
      ok, effects, results := FailCall(a, store, id, base, ver, event, attempts, now.value, h, BeginActs(base, event));
    } else {
      var more;
      ok, dones, more := SucceedCall(a, store, id, base, ver, event, attempts, now.value, done, doneTold, BeginActs(base, event));
      effects := effects + more;
    }
    OthersKeptTwice(id, old(store.Contents()), begun, store.Contents());
    if ok { trace := CallIsTraced(a, base, event, attempts, told, doneTold, |dones|, store.Contents()[id].row.state); }
  }
}
