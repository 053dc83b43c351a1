/** Runs of region-local machines: conditions on the machine's edges and on the targets that handlers
    return, under which every reachable record is sound (runtime/actor.ts). */
module LocalRuns {
  import opened Records
  import opened Machines
  import opened DotPaths
  import opened Configurations
  import opened Entry
  import opened Leaves
  import opened Transitions
  import opened Validation
  import opened Engine
  import opened Matching
  import opened Completion
  import opened Broadcast
  import opened Stores
  import opened Calls
  import opened Protocol
  import opened ProtocolLaws
  import opened Turns

  // ---- Where the attempts of a run come from ----

  ghost predicate ActCarries<C>(ok: seq<Attempt<C>> -> bool, act: Act<C>) {
    act.Succeed? || act.Fail? || act.Append? ==> ok(act.attempts)
  }

  ghost predicate WorkerCarries<C>(ok: seq<Attempt<C>> -> bool, x: Worker<C>) {
    && (x.Failing? ==> ok(x.attempts))
    && (x.Unwinding? && x.why.Step? ==> ok(x.why.attempts))
  }

  ghost predicate ActionCarries<C>(ok: seq<Attempt<C>> -> bool, action: Action<C>) {
    action.CommitSuccess? || action.FlushFailure? ==> ok(action.attempts)
  }

  /** All attempts in the log and in the workers' hands satisfy `ok`. */
  ghost predicate Carries<C>(ok: seq<Attempt<C>> -> bool, s: World<C>) {
    && (forall k :: 0 <= k < |s.log| ==> ActCarries(ok, s.log[k].act))
    && (forall w :: w in s.workers ==> WorkerCarries(ok, s.workers[w]))
  }

  lemma UpdateCarries<C>(writes: Rule<C>, ok: seq<Attempt<C>> -> bool, s: World<C>, w: nat, base: Row<C>, ver: nat, act: Act<C>, next: Option<Worker<C>>)
    requires Carries(ok, s) && ActCarries(ok, act) && (next.Some? ==> WorkerCarries(ok, next.value))
    ensures Carries(ok, Update(writes, s, w, base, ver, act, next))
  {}

  lemma HandlingCarries<C>(a: Actor, writes: Rule<C>, ok: seq<Attempt<C>> -> bool, s: World<C>, action: Action<C>, x: Worker<C>)
    requires Carries(ok, s) && ActionCarries(ok, action) && x.Handling?
    ensures Carries(ok, Resume(a, writes, s, action, x))
  {
    if action.CommitSuccess? {
      UpdateCarries(writes, ok, s, action.w, x.base, x.ver, Succeed(x.event, action.attempts, action.dones), None);
    } else if action.FlushFailure? {
      UpdateCarries(writes, ok, s, action.w, x.base, x.ver, Append(x.event, action.attempts),
        Some(Failing(x.base, x.ver + 1, x.event, action.attempts)));
    }
  }

  lemma FailingCarries<C>(a: Actor, writes: Rule<C>, ok: seq<Attempt<C>> -> bool, s: World<C>, action: Action<C>, x: Worker<C>)
    requires Carries(ok, s) && WorkerCarries(ok, x) && x.Failing?
    ensures Carries(ok, Resume(a, writes, s, action, x))
  {
    UpdateCarries(writes, ok, s, action.w, x.base, x.ver, Compensate,
      Some(Unwinding(x.base, x.ver + 1, Why.Step(x.event, x.attempts), None, false, [])));
    UpdateCarries(writes, ok, s, action.w, x.base, x.ver, Fail(x.event, x.attempts, []), None);
  }

  lemma SweepCarries<C>(writes: Rule<C>, ok: seq<Attempt<C>> -> bool, s: World<C>, action: Action<C>, base: Row<C>, ver: nat)
    requires Carries(ok, s)
    ensures Carries(ok, SweepOne(writes, s, action, base, ver))
  {
    UpdateCarries(writes, ok, s, action.w, base, ver, MarkFail, None);
    UpdateCarries(writes, ok, s, action.w, base, ver, Compensate, Some(Unwinding(base, ver + 1, Sweep, None, false, [])));
  }

  lemma ResumeCarries<C>(a: Actor, writes: Rule<C>, ok: seq<Attempt<C>> -> bool, s: World<C>, action: Action<C>, x: Worker<C>)
    requires Carries(ok, s) && ActionCarries(ok, action) && action.w in s.workers && x == s.workers[action.w]
    ensures Carries(ok, Resume(a, writes, s, action, x))
  {
    assert WorkerCarries(ok, x);
    match x
    case Called(_, _, _) => CalledCarries(writes, ok, s, action.w, x);
    case Handling(_, _, _) => HandlingCarries(a, writes, ok, s, action, x);
    case Failing(_, _, _, _) => FailingCarries(a, writes, ok, s, action, x);
    case Unwinding(_, _, _, _, _, _) => UnwindCarries(a.registered, writes, ok, s, action, x);
    case Swept(base, ver) => SweepCarries(writes, ok, s, action, base, ver);
    case Continuing(_, _) => ContinuingCarries(writes, ok, s, action.w, x);
    case Expired =>
  }

  lemma CalledCarries<C>(writes: Rule<C>, ok: seq<Attempt<C>> -> bool, s: World<C>, w: nat, x: Worker<C>)
    requires Carries(ok, s) && x.Called?
    ensures Carries(ok, Mark(writes, s, w, x.base, x.ver, x.event))
  {
    UpdateCarries(writes, ok, s, w, x.base, x.ver, Begin(x.event), Some(Handling(x.base, x.ver + 1, x.event)));
  }

  lemma ContinuingCarries<C>(writes: Rule<C>, ok: seq<Attempt<C>> -> bool, s: World<C>, w: nat, x: Worker<C>)
    requires Carries(ok, s) && x.Continuing?
    ensures Carries(ok, Release(writes, s, w, x.base, x.ver))
  {
    UpdateCarries(writes, ok, s, w, x.base, x.ver, Unlock,
      if x.base.activeStep.Some? then Some(Called(x.base, x.ver + 1, x.base.activeStep.value)) else None);
  }

  lemma UnwindCarries<C>(registered: set<string>, writes: Rule<C>, ok: seq<Attempt<C>> -> bool, s: World<C>, action: Action<C>, x: Worker<C>)
    requires Carries(ok, s) && WorkerCarries(ok, x) && x.Unwinding?
    ensures Carries(ok, Unwind(registered, writes, s, action, x.base, x.ver, x.why, x.todo, x.called, x.results))
  {
    UpdateCarries(writes, ok, s, action.w, x.base, x.ver,
      if x.why.Sweep? then Recover(x.results) else Fail(x.why.event, x.why.attempts, x.results), None);
  }

  lemma PerformCarries<C>(a: Actor, writes: Rule<C>, ok: seq<Attempt<C>> -> bool, s: World<C>, action: Action<C>)
    requires Carries(ok, s) && ActionCarries(ok, action)
    ensures Carries(ok, Perform(a, writes, s, action))
  {
    if !action.GetTransaction? && !action.QueryStuck? && !action.QueryExpired? && action.w in s.workers {
      ResumeCarries(a, writes, ok, s, action, s.workers[action.w]);
    }
  }

  lemma {:induction false} RunCarries<C>(a: Actor, writes: Rule<C>, ok: seq<Attempt<C>> -> bool, s: World<C>, actions: seq<Action<C>>)
    requires Carries(ok, s) && forall i :: 0 <= i < |actions| ==> ActionCarries(ok, actions[i])
    ensures Carries(ok, Run(a, writes, s, actions))
    decreases |actions|
  {
    if actions != [] {
      PerformCarries(a, writes, ok, s, actions[0]);
      forall i | 0 <= i < |actions[1..]| ensures ActionCarries(ok, actions[1..][i]) {
        assert ActionCarries(ok, actions[i + 1]);
      }
      RunCarries(a, writes, ok, Perform(a, writes, s, actions[0]), actions[1..]);
    }
  }

  // ---- Conditions on the machine and on returned targets ----

  /** The two states are in different regions of a parallel node. */
  ghost predicate InOtherRegions(n: Node, p: Path, q: Path) {
    exists i :: 0 <= i < |p| && i < |q| && p[..i] == q[..i] && p[i] != q[i]
                && NodeAt(n, p[..i]).Some? && NodeAt(n, p[..i]).value.kind == Parallel
  }

  /** A target used at `p` for `event`: region-local, and inside all regions of `p` unless no state in
      another region handles the same event. */
  ghost predicate LocalTarget(m: Machine, p: Path, event: string, ref: string) {
    var t := ResolveTarget(m, Join(p), ref);
    t.Some? ==>
      && LocalTo(LiveRoot(m), p, t.value)
      && (RegionLocal(LiveRoot(m), t.value, p) || forall q :: Handles(LiveRoot(m), q, event) ==> !InOtherRegions(LiveRoot(m), p, q))
  }

  ghost predicate EdgesLocal(m: Machine) {
    forall p, event :: Handles(LiveRoot(m), p, event) && Get(NodeAt(LiveRoot(m), p).value.on, event).value.target != "" ==>
      LocalTarget(m, p, event, Get(NodeAt(LiveRoot(m), p).value.on, event).value.target)
  }

  /** A returned target is local for every event its state handles; a fallback, which ends its call,
      only has to be region-local. */
  ghost predicate ReturnIsLocal<C>(m: Machine, attempt: Attempt<C>) {
    match attempt
    case Succeeded(source, given, _) =>
      given.Some? && given.value != "" ==> forall event :: Handles(LiveRoot(m), source, event) ==> LocalTarget(m, source, event, given.value)
    case Failed(source, fallback, _) =>
      var t := ResolveTarget(m, Join(source), fallback);
      t.Some? ==> LocalTo(LiveRoot(m), source, t.value)
  }

  ghost predicate ReturnsLocal<C>(m: Machine, attempts: seq<Attempt<C>>) {
    forall i :: 0 <= i < |attempts| ==> ReturnIsLocal(m, attempts[i])
  }

  ghost function ReturnsLocalIn<C(!new)>(m: Machine): seq<Attempt<C>> -> bool {
    attempts => ReturnsLocal(m, attempts)
  }

  /** The attempts come from the pipelines bound to the matches. */
  predicate Bound<C>(matches: seq<Match>, attempts: seq<Attempt<C>>) {
    && |attempts| <= |matches|
    && forall i :: 0 <= i < |attempts| ==>
         attempts[i].source == matches[i].source && (attempts[i].Failed? ==> i == |attempts| - 1)
  }

  lemma {:induction false} WorkIsBound<C>(a: Actor, event: string, matches: seq<Match>, attempts: seq<Attempt<C>>, now: Local<C>)
    requires |attempts| <= |matches| && Work(a, event, matches, attempts, now).Some?
    ensures forall i :: 0 <= i < |attempts| ==> attempts[i].source == matches[i].source && attempts[i].Succeeded?
    decreases |attempts|
  {
    if attempts != [] {
      WorkUnfolds(a, event, matches, attempts, now);
      var next := Calls.Advance(a, event, matches[0], attempts[0], now).value;
      WorkIsBound(a, event, matches[1..], attempts[1..], next);
      forall i | 0 <= i < |attempts| ensures attempts[i].source == matches[i].source && attempts[i].Succeeded? {
        if i > 0 { assert attempts[i] == attempts[1..][i - 1] && matches[i] == matches[1..][i - 1]; }
      }
    }
  }

  lemma SuccessIsBound<C>(a: Actor, base: Row<C>, act: Act<C>)
    requires act.Succeed? && WhatItWrites(a, base, act).Some?
    ensures Bound(ResolveTransitions(a.m, base.state, act.event), act.attempts)
  {
    WorkIsBound(a, act.event, ResolveTransitions(a.m, base.state, act.event), act.attempts, Before(base));
  }

  lemma FailureHasWork<C>(a: Actor, base: Row<C>, act: Act<C>)
    requires act.Fail? && WhatItWrites(a, base, act).Some?
    ensures FailsLast(a, base, act.event, act.attempts) && UntilFailure(a, base, act.event, act.attempts).Some?
  {}

  lemma FailureIsBound<C>(a: Actor, base: Row<C>, event: string, attempts: seq<Attempt<C>>)
    requires FailsLast(a, base, event, attempts) && UntilFailure(a, base, event, attempts).Some?
    ensures Bound(ResolveTransitions(a.m, base.state, event), attempts)
  {
    var k := |attempts| - 1;
    WorkIsBound(a, event, ResolveTransitions(a.m, base.state, event), attempts[..k], Before(base));
    assert forall i :: 0 <= i < k ==> attempts[..k][i] == attempts[i];
  }

  lemma ActIsBound<C>(a: Actor, base: Row<C>, act: Act<C>)
    requires (act.Succeed? || act.Fail?) && WhatItWrites(a, base, act).Some?
    ensures Bound(ResolveTransitions(a.m, base.state, act.event), act.attempts)
  {
    if act.Succeed? {
      SuccessIsBound(a, base, act);
    } else {
      FailureHasWork(a, base, act);
      FailureIsBound(a, base, act.event, act.attempts);
    }
  }

  /** One turn of a call on a local machine. */
  lemma TurnIsLocal<C>(m: Machine, v: StateValue, event: string, attempts: seq<Attempt<C>>, i: nat)
    requires Running(m, v) && EdgesLocal(m) && ReturnsLocal(m, attempts)
    requires Bound(ResolveTransitions(m, v, event), attempts) && i < |attempts|
    ensures LocalTurn(m, ResolveTransitions(m, v, event)[i], attempts[i], i == |attempts| - 1)
  {
    var matches := ResolveTransitions(m, v, event);
    var x := matches[i];
    MatchesAreSpread(m, v, event);
    MatchesAreInnermost(m, v, event, x);
    assert ReturnIsLocal(m, attempts[i]);
    if attempts[i].Succeeded? && Reference(x, attempts[i].given) != "" {
      var ref := Reference(x, attempts[i].given);
      assert LocalTarget(m, x.source, event, ref);
      if i < |attempts| - 1 {
        OtherRegion(m, v, x.source, matches[i + 1].source);
        MatchesAreInnermost(m, v, event, matches[i + 1]);
      }
    }
  }

  lemma OtherRegion(m: Machine, v: StateValue, p: Path, q: Path)
    requires Running(m, v) && IsActive(LiveRoot(m), v, p) && IsActive(LiveRoot(m), v, q) && !(p <= q) && !(q <= p)
    ensures InOtherRegions(LiveRoot(m), p, q)
  {
    LiveRootShape(m);
    var i := Diverge(LiveRoot(m), v, p, q);
  }

  lemma CallIsLocal<C>(m: Machine, base: Row<C>, act: Act<C>)
    requires Running(m, base.state) && ReadableRegions(LiveRoot(m)) && EdgesLocal(m) && OnDoneLocal(m)
    requires (act.Succeed? || act.Fail?) && ReturnsLocal(m, act.attempts)
    requires Bound(ResolveTransitions(m, base.state, act.event), act.attempts)
    ensures SafeAct(m, base, act)
  {
    var matches := ResolveTransitions(m, base.state, act.event);
    MatchesAreSpread(m, base.state, act.event);
    forall i | 0 <= i < |act.attempts| ensures LocalTurn(m, matches[i], act.attempts[i], i == |act.attempts| - 1) {
      TurnIsLocal(m, base.state, act.event, act.attempts, i);
    }
    LocalCallIsSafe(m, base.state, matches, act.attempts);
    CallIsWellFormedIff(m, base.state, matches, act.attempts);
    TurnsEndWell(m, base.state, matches, act.attempts);
    var v := AfterTurns(m, base.state, matches, act.attempts);
    if v.Some? { LocalCascadeIsSafe(m, v.value, CascadeLimit); }
  }

  lemma CommitIsGuarded<C(!new)>(a: Actor, log: seq<Commit<C>>, k: nat)
    requires ActorOk(a) && EdgesLocal(a.m) && OnDoneLocal(a.m) && Logged(Writes(a), log) && 0 < k < |log|
    requires ActCarries(ReturnsLocalIn(a.m), log[k].act)
    requires 1 <= log[k].base <= k && RowOk(a.m, log[log[k].base - 1].row)
    ensures GuardedAt(a.m, log, k)
  {
    assert Chained(Writes(a), log, k);
    var base := log[log[k].base - 1].row;
    if log[k].act.Succeed? || log[k].act.Fail? {
      ActIsBound(a, base, log[k].act);
      CallIsLocal(a.m, base, log[k].act);
    }
  }

  lemma {:induction false} LogIsGuarded<C(!new)>(a: Actor, log: seq<Commit<C>>, k: nat)
    requires ActorOk(a) && EdgesLocal(a.m) && OnDoneLocal(a.m) && Logged(Writes(a), log) && k <= |log| && |log| > 0 && RowOk(a.m, log[0].row)
    requires forall j :: 0 <= j < |log| ==> ActCarries(ReturnsLocalIn(a.m), log[j].act)
    ensures forall j :: 0 < j < k ==> GuardedAt(a.m, log, j)
    decreases k
  {
    if k > 1 {
      LogIsGuarded(a, log, k - 1);
      OwnAt(Writes(a), log, k - 1);
      LogIsOk(a, log, log[k - 1].base - 1);
      assert ActCarries(ReturnsLocalIn(a.m), log[k - 1].act);
      CommitIsGuarded(a, log, k - 1);
    }
  }

  /** Main result: if the machine's edges, the targets that handlers return and the fallbacks are
      region-local, and no event is handled in two regions of which a transition leaves one, then
      every record that is reachable by start, transitions and sweeps is sound. */
  lemma EveryRecord<C(!new)>(a: Actor, context: C, actions: seq<Action<C>>)
    requires ActorOk(a) && EdgesLocal(a.m) && OnDoneLocal(a.m)
    requires forall i :: 0 <= i < |actions| ==> ActionCarries(ReturnsLocalIn(a.m), actions[i])
    ensures ResolveInitialState(a.m).Some?
    ensures var s := Run(a, Writes(a), Started(StartRow(a.m, context)), actions);
      && |s.log| > 0 && AtStart(a.m, context, s.log[0].row) && AllSound(a.m, s.log)
      && (s.tx.Some? ==> RowOk(a.m, s.tx.value.row) && s.tx.value.row.version == |s.log|)
  {
    StartIsOk(a, context);
    var first := StartRow(a.m, context);
    var s := Run(a, Writes(a), Started(first), actions);
    RunCarries(a, Writes(a), ReturnsLocalIn(a.m), Started(first), actions);
    SingleChain(a, first, actions);
    RunExtends(a, Writes(a), Started(first), actions);
    LogIsGuarded(a, s.log, |s.log|);
    LogIff(a, s.log);
    if s.tx.Some? { assert SoundAt(a.m, s.log, |s.log| - 1); }
  }
}
