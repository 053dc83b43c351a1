/** What holds of every record that transition calls, sweeps and cleanups can leave behind, however
    they are interleaved (runtime/actor.ts). */
module ProtocolLaws {
  import opened Records
  import opened Machines
  import opened Configurations
  import opened Entry
  import opened Leaves
  import opened Engine
  import opened Matching
  import opened Completion
  import opened Stores
  import opened Calls
  import opened Protocol
  import opened Turns

  // ---- The chain ----

  /** Main result: whatever the interleaving, the committed records form one chain. Each patches the
      record before it, and is computed from the record before its worker's own run of updates. */
  lemma SingleChain<C>(a: Actor, first: Row<C>, actions: seq<Action<C>>)
    ensures var s := Run(a, Writes(a), Started(first), actions);
      && Logged(Writes(a), s.log)
      && (s.tx.Some? ==>
            && s.tx.value.row == s.log[|s.log| - 1].row
            && s.tx.value.row.version == |s.log|
            && CompsOf(s.tx.value.stack) == Appended(Writes(a), s.log, |s.log|))
  {
    RunKeeps(a, Writes(a), Started(first), actions);
  }

  /** No committed step is overwritten unseen: when two commits change the state, the later one's
      worker took its snapshot at or after the earlier one. */
  lemma NothingOverwritten<C>(a: Actor, log: seq<Commit<C>>, i: nat, j: nat)
    requires Logged(Writes(a), log) && 0 < i < j < |log| && !Preliminary(log[i].act)
    ensures log[i].row.version <= log[j].base
  {
    assert Chained(Writes(a), log, j);
    assert log[j].base > i;
  }

  /** Preliminary updates leave the data as the worker read it. */
  lemma {:induction false} DataUntouched<C>(a: Actor, log: seq<Commit<C>>, w: nat, base: nat, ver: nat)
    requires Logged(Writes(a), log) && Own(log, w, base, ver)
    ensures log[ver - 1].row.state == log[base - 1].row.state
    ensures log[ver - 1].row.context == log[base - 1].row.context
    decreases ver
  {
    if base < ver {
      DataUntouched(a, log, w, base, ver - 1);
      PreliminaryCommit(a, Writes(a), log, ver - 1);
    }
  }

  lemma PreliminaryCommit<C>(a: Actor, writes: Rule<C>, log: seq<Commit<C>>, k: nat)
    requires Logged(writes, log) && writes == Writes(a) && 0 < k < |log| && Preliminary(log[k].act)
    ensures log[k].row.state == log[k - 1].row.state && log[k].row.context == log[k - 1].row.context
  {
    assert Chained(writes, log, k);
    PreliminaryPatch(a, log[log[k].base - 1].row, log[k].act);
  }

  lemma PreliminaryPatch<C>(a: Actor, base: Row<C>, act: Act<C>)
    requires Preliminary(act) && WhatItWrites(a, base, act).Some?
    ensures var p := WhatItWrites(a, base, act).value.patch; p.state.None? && p.context.None?
  {}

  lemma SameData<C>(a: Actor, x: Row<C>, y: Row<C>, act: Act<C>)
    requires x.state == y.state && x.context == y.context && (act.Unlock? ==> x == y)
    ensures WhatItWrites(a, x, act) == WhatItWrites(a, y, act)
  {
    assert Before(x) == Before(y);
  }

  function Acts<C>(log: seq<Commit<C>>): seq<Act<C>> {
    seq(|log|, i requires 0 <= i < |log| => log[i].act)
  }

  /** The updates made one after the other by a single worker: each reads the current record. */
  function Alone<C>(writes: Rule<C>, row: Row<C>, acts: seq<Act<C>>): Option<Row<C>>
    decreases |acts|
  {
    if acts == [] then Some(row)
    else match Alone(writes, row, acts[..|acts| - 1])
      case None => None
      case Some(now) =>
        match writes(now, acts[|acts| - 1])
        case None => None
        case Some(change) => Some(Patched(now, change.patch))
  }

  /** Each committed update is what its worker would have computed from the record before it. */
  lemma AsIfAlone<C>(a: Actor, log: seq<Commit<C>>, k: nat)
    requires Logged(Writes(a), log) && 0 < k < |log|
    ensures AloneAt(Writes(a), log, k)
  {
    var c := log[k];
    OwnAt(Writes(a), log, k);
    DataUntouched(a, log, c.worker, c.base, k);
    SameData(a, log[c.base - 1].row, log[k - 1].row, c.act);
    ChainedAlone(Writes(a), log, k);
  }

  lemma ChainedAlone<C>(writes: Rule<C>, log: seq<Commit<C>>, k: nat)
    requires Logged(writes, log) && 0 < k < |log| && 1 <= log[k].base <= k
    requires writes(log[log[k].base - 1].row, log[k].act) == writes(log[k - 1].row, log[k].act)
    ensures AloneAt(writes, log, k)
  {
    assert Chained(writes, log, k);
  }

  ghost predicate AloneAt<C>(writes: Rule<C>, log: seq<Commit<C>>, k: nat)
    requires 0 < k < |log|
  {
    var change := writes(log[k - 1].row, log[k].act);
    change.Some? && log[k].row == Patched(log[k - 1].row, change.value.patch)
  }

  ghost predicate Stepwise<C>(writes: Rule<C>, log: seq<Commit<C>>) {
    forall k :: 0 < k < |log| ==> AloneAt(writes, log, k)
  }

  lemma {:induction false} LogIsAlone<C>(writes: Rule<C>, log: seq<Commit<C>>, k: nat)
    requires Stepwise(writes, log) && 0 < k <= |log|
    ensures Alone(writes, log[0].row, Acts(log)[1..k]) == Some(log[k - 1].row)
    decreases k
  {
    if k > 1 {
      assert AloneAt(writes, log, k - 1);
      LogIsAlone(writes, log, k - 1);
      assert Acts(log)[1..k][..k - 2] == Acts(log)[1..k - 1] && Acts(log)[1..k][k - 2] == log[k - 1].act;
    }
  }

  lemma EveryStepAlone<C>(a: Actor, log: seq<Commit<C>>)
    requires Logged(Writes(a), log)
    ensures Stepwise(Writes(a), log)
  {
    forall k | 0 < k < |log| ensures AloneAt(Writes(a), log, k) { AsIfAlone(a, log, k); }
  }

  /** Main result: every concurrent run is serializable. The record is the one that the committed
      updates leave when each is computed and made alone, in the order of the commits. */
  lemma Serializable<C>(a: Actor, first: Row<C>, actions: seq<Action<C>>)
    ensures var s := Run(a, Writes(a), Started(first), actions);
      |s.log| > 0 && (s.tx.Some? ==> Alone(Writes(a), first.(version := 1), Acts(s.log)[1..]) == Some(s.tx.value.row))
  {
    var s := Run(a, Writes(a), Started(first), actions);
    RunExtends(a, Writes(a), Started(first), actions);
    SingleChain(a, first, actions);
    EveryStepAlone(a, s.log);
    LogIsAlone(Writes(a), s.log, |s.log|);
    assert Acts(s.log)[1..|s.log|] == Acts(s.log)[1..];
  }

  // ---- The invariants of every record ----

  ghost predicate ActorOk(a: Actor) {
    && ValidTree(a.m) && ReadableRegions(LiveRoot(a.m))
    && a.m.kind == Compound && Has(a.m.states, ErrorKey) && IsLeaf(Get(a.m.states, ErrorKey).value)
  }

  predicate Settled(status: Status) {
    status == Idle || status == Completed || status == Completion.Failed || status == Compensated
  }

  ghost predicate RowOk<C>(m: Machine, row: Row<C>) {
    && Running(m, row.state)
    && (row.status == InFlight ==> row.activeStep.Some?)
    && (Settled(row.status) ==> row.activeStep.None? && !row.leased)
    && (row.status == Completed ==> EverythingFinal(m, row.state))
    && (row.status == Completion.Failed ==> row.state == Leaf(ErrorKey))
  }

  /** The turns of the call that ends with this update, and its cascade. */
  ghost predicate SafeAct<C>(m: Machine, base: Row<C>, act: Act<C>) {
    act.Succeed? || act.Fail? ==>
      var matches := ResolveTransitions(m, base.state, act.event);
      && SafeTurns(m, base.state, matches, act.attempts)
      && (act.Succeed? ==> SafeAfter(m, AfterTurns(m, base.state, matches, act.attempts)))
  }

  ghost predicate SafeAfter(m: Machine, v: Option<StateValue>) {
    v.Some? ==> SafeCascade(m, v.value, CascadeLimit)
  }

  ghost predicate WellAct<C>(m: Machine, base: Row<C>, act: Act<C>) {
    act.Succeed? || act.Fail? ==>
      var matches := ResolveTransitions(m, base.state, act.event);
      && WellTurned(m, base.state, matches, act.attempts)
      && (act.Succeed? ==> WellAfter(m, AfterTurns(m, base.state, matches, act.attempts)))
  }

  ghost predicate WellAfter(m: Machine, v: Option<StateValue>) {
    v.Some? ==> WellCascade(m, v.value, CascadeLimit)
  }

  lemma ActIff<C>(m: Machine, base: Row<C>, act: Act<C>)
    requires Running(m, base.state) && ReadableRegions(LiveRoot(m))
    ensures WellAct(m, base, act) <==> SafeAct(m, base, act)
  {
    if act.Succeed? || act.Fail? {
      var matches := ResolveTransitions(m, base.state, act.event);
      MatchesAreSpread(m, base.state, act.event);
      CallIsWellFormedIff(m, base.state, matches, act.attempts);
      var v := AfterTurns(m, base.state, matches, act.attempts);
      if WellTurned(m, base.state, matches, act.attempts) && v.Some? {
        TurnsEndWell(m, base.state, matches, act.attempts);
        CascadeIsWellFormedIff(m, v.value, CascadeLimit);
      }
    }
  }

  lemma SuccessIsOk<C>(a: Actor, base: Row<C>, act: Act<C>)
    requires ActorOk(a) && RowOk(a.m, base) && act.Succeed? && WellAct(a.m, base, act)
    requires WhatItWrites(a, base, act).Some?
    ensures var p := WhatItWrites(a, base, act).value.patch;
      p.state.Some? && p.status.Some? && SettledOk(a.m, p.state.value, p.status.value)
  {
    var matches := ResolveTransitions(a.m, base.state, act.event);
    var now := Work(a, act.event, matches, act.attempts, Before(base)).value;
    WorkEndsWell(a, act.event, matches, act.attempts, Before(base));
    forall x {:trigger TakeTurn(a.m, x)} ensures Completion.Turns(a.m)(x) == TakeTurn(a.m, x) {}
    CascadeEndsWell(a.m, Completion.Turns(a.m), now.value, CascadeLimit);
    SettledStatusMeaning(a.m, Cascade(a.m, now.value, CascadeLimit).value, false);
  }

  ghost predicate SettledOk(m: Machine, v: StateValue, status: Status) {
    && Running(m, v) && Settled(status)
    && (status == Completed ==> EverythingFinal(m, v))
    && (status == Completion.Failed ==> v == Leaf(ErrorKey))
  }

  lemma FailureIsOk<C>(a: Actor, base: Row<C>, act: Act<C>)
    requires ActorOk(a) && RowOk(a.m, base) && act.Fail? && WellAct(a.m, base, act)
    requires WhatItWrites(a, base, act).Some?
    ensures var p := WhatItWrites(a, base, act).value.patch;
      p.state.Some? && p.status.Some? && SettledOk(a.m, p.state.value, p.status.value)
  {
    var matches := ResolveTransitions(a.m, base.state, act.event);
    var k := |act.attempts| - 1;
    var now := Work(a, act.event, matches, act.attempts[..k], Before(base)).value;
    var fallback := act.attempts[k].fallback;
    FailureEndsWell(a, act.event, matches, act.attempts, Before(base));
    SettledStatusMeaning(a.m, Reached(a.m, now.value, matches[k].source, fallback).value, act.attempts[k].compensate);
  }

  /** The `error` state of a compound root is a configuration of its own. */
  lemma ErrorIsRunning(a: Actor)
    requires ActorOk(a)
    ensures Running(a.m, Leaf(ErrorKey))
  {
    LiveRootShape(a.m);
    LiveLookup(a.m, [ErrorKey]);
  }

  lemma ActIsOk<C>(a: Actor, prev: Row<C>, base: Row<C>, act: Act<C>)
    requires ActorOk(a) && RowOk(a.m, prev) && RowOk(a.m, base) && WellAct(a.m, base, act)
    requires act.Unlock? ==> prev == base
    requires WhatItWrites(a, base, act).Some?
    ensures RowOk(a.m, Patched(prev, WhatItWrites(a, base, act).value.patch))
  {
    ErrorIsRunning(a);
    match act
    case Succeed(_, _, _) => SuccessIsOk(a, base, act);
    case Fail(_, _, _) => FailureIsOk(a, base, act);
    case _ =>
  }

  /** One commit that follows good records. */
  lemma CommitIsOk<C>(a: Actor, log: seq<Commit<C>>, k: nat)
    requires ActorOk(a) && Logged(Writes(a), log) && 0 < k < |log| && 1 <= log[k].base <= k
    requires RowOk(a.m, log[k - 1].row) && RowOk(a.m, log[log[k].base - 1].row)
    requires WellAct(a.m, log[log[k].base - 1].row, log[k].act)
    ensures RowOk(a.m, log[k].row)
  {
    var prev, base := ChainedOn(Writes(a), log, k);
    ActIsOk(a, prev, base, log[k].act);
  }

  lemma ChainedOn<C>(writes: Rule<C>, log: seq<Commit<C>>, k: nat) returns (prev: Row<C>, base: Row<C>)
    requires Logged(writes, log) && 0 < k < |log| && 1 <= log[k].base <= k
    ensures prev == log[k - 1].row && base == log[log[k].base - 1].row && (log[k].act.Unlock? ==> prev == base)
    ensures writes(base, log[k].act).Some? && log[k].row == Patched(prev, writes(base, log[k].act).value.patch)
  {
    assert Chained(writes, log, k);
    prev, base := log[k - 1].row, log[log[k].base - 1].row;
  }

  /** The call committed at k met the guard at each of its turns. */
  ghost predicate GuardedAt<C>(m: Machine, log: seq<Commit<C>>, k: nat)
    requires 0 < k < |log|
  {
    1 <= log[k].base <= k && SafeAct(m, log[log[k].base - 1].row, log[k].act)
  }

  /** The record at k is sound, and so was every working configuration of the call that left it. */
  ghost predicate SoundAt<C>(m: Machine, log: seq<Commit<C>>, k: nat)
    requires k < |log|
  {
    && RowOk(m, log[k].row) && log[k].row.version == k + 1
    && (k > 0 ==> 1 <= log[k].base <= k && WellAct(m, log[log[k].base - 1].row, log[k].act))
  }

  lemma {:induction false} LogIsOk<C>(a: Actor, log: seq<Commit<C>>, k: nat)
    requires ActorOk(a) && Logged(Writes(a), log) && k < |log| && RowOk(a.m, log[0].row)
    requires forall j :: 0 < j <= k ==> GuardedAt(a.m, log, j)
    ensures SoundAt(a.m, log, k)
    decreases k
  {
    if k > 0 {
      OwnAt(Writes(a), log, k);
      LogIsOk(a, log, k - 1);
      LogIsOk(a, log, log[k].base - 1);
      assert GuardedAt(a.m, log, k);
      ActIff(a.m, log[log[k].base - 1].row, log[k].act);
      CommitIsOk(a, log, k);
    }
  }

  ghost predicate AllGuarded<C>(m: Machine, log: seq<Commit<C>>) {
    forall k :: 0 < k < |log| ==> GuardedAt(m, log, k)
  }

  ghost predicate AllSound<C>(m: Machine, log: seq<Commit<C>>) {
    forall k :: 0 <= k < |log| ==> SoundAt(m, log, k)
  }

  lemma LogIff<C>(a: Actor, log: seq<Commit<C>>)
    requires ActorOk(a) && Logged(Writes(a), log) && RowOk(a.m, log[0].row)
    ensures AllSound(a.m, log) <==> AllGuarded(a.m, log)
  {
    if AllGuarded(a.m, log) {
      forall k | 0 <= k < |log| ensures SoundAt(a.m, log, k) {
        forall j | 0 < j <= k ensures GuardedAt(a.m, log, j) {}
        LogIsOk(a, log, k);
      }
    }
    if AllSound(a.m, log) {
      forall k | 0 < k < |log| ensures GuardedAt(a.m, log, k) { SoundIsGuarded(a, log, k); }
    }
  }

  /** The record that startTransaction writes. */
  function StartRow<C>(m: Machine, context: C): Row<C>
    requires ResolveInitialState(m).Some?
  {
    var v := ResolveInitialState(m).value.0;
    Row(v, context, ResolveSettledStatus(m, v, false), None, false, 1)
  }

  ghost predicate AtStart<C>(m: Machine, context: C, row: Row<C>) {
    && row == Row(row.state, context, row.status, None, false, 1)
    && (forall p :: IsActive(LiveRoot(m), row.state, p) <==> FollowsInitial(LiveRoot(m), p))
    && row.status ==
       (if row.state == Leaf("error") then Completion.Failed else if EverythingFinal(m, row.state) then Completed else Idle)
  }

  /** The first record: exactly the nodes reached by following `initial` are active, the context is
      the one given, nothing is in flight, and the status is settled. */
  lemma StartIsOk<C>(a: Actor, context: C)
    requires ActorOk(a)
    ensures ResolveInitialState(a.m).Some?
    ensures AtStart(a.m, context, StartRow(a.m, context)) && RowOk(a.m, StartRow(a.m, context))
  {
    var order := InitialFollows(a.m);
    SettledStatusMeaning(a.m, ResolveInitialState(a.m).value.0, false);
  }

  /** Main result: every reachable record is sound, with every working configuration on the way,
      exactly when every committed call met its guard at each turn and in its cascade. Sound means: the state is well
      formed, the version is one more than the number of updates, IN_FLIGHT records have an active
      step, settled ones have neither step nor lease, COMPLETED means that every active leaf is
      final and FAILED that the state is `error`. The first record is the initial one. */
  lemma EveryRecordIff<C>(a: Actor, context: C, actions: seq<Action<C>>)
    requires ActorOk(a)
    ensures ResolveInitialState(a.m).Some?
    ensures var s := Run(a, Writes(a), Started(StartRow(a.m, context)), actions);
      && |s.log| > 0 && AtStart(a.m, context, s.log[0].row)
      && (AllSound(a.m, s.log) <==> AllGuarded(a.m, s.log))
      && (s.tx.Some? ==> s.tx.value.row == s.log[|s.log| - 1].row)
  {
    StartIsOk(a, context);
    RunIsLogged(a, StartRow(a.m, context), actions);
    LogIff(a, Run(a, Writes(a), Started(StartRow(a.m, context)), actions).log);
  }

  lemma RunIsLogged<C>(a: Actor, first: Row<C>, actions: seq<Action<C>>)
    ensures var s := Run(a, Writes(a), Started(first), actions);
      && Logged(Writes(a), s.log) && s.log[0].row == first.(version := 1)
      && (s.tx.Some? ==> s.tx.value.row == s.log[|s.log| - 1].row)
  {
    SingleChain(a, first, actions);
    RunExtends(a, Writes(a), Started(first), actions);
    assert Started(first).log[0] == Run(a, Writes(a), Started(first), actions).log[0];
  }

  lemma SoundIsGuarded<C>(a: Actor, log: seq<Commit<C>>, k: nat)
    requires ReadableRegions(LiveRoot(a.m)) && 0 < k < |log| && AllSound(a.m, log)
    ensures GuardedAt(a.m, log, k)
  {
    assert SoundAt(a.m, log, k);
    assert SoundAt(a.m, log, log[k].base - 1);
    ActIff(a.m, log[log[k].base - 1].row, log[k].act);
  }
}
