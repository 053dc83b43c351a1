/** Forward steps and their rollback together: what a run of committed calls leaves on the stack is
    what an unwinding needs (runtime/actor.ts). */
module Rollbacks {
  import opened Records
  import opened Matching
  import opened Stores
  import opened Calls
  import opened Protocol
  import opened ProtocolLaws
  import opened Saga
  import opened CallLoops
  import opened Unwindings
  import opened Gathering

  /** The contexts that the handlers of a successful call returned, in order. */
  function Contexts<C>(attempts: seq<Attempt<C>>): seq<C>
    requires AllSucceed(attempts)
  {
    seq(|attempts|, i requires 0 <= i < |attempts| => attempts[i].context)
  }

  /** The first n matches have compensators. */
  predicate AllBound(a: Actor, matches: seq<Match>, event: string, n: nat) {
    n <= |matches| && forall j :: 0 <= j < n ==> (matches[j].source, event) in a.compensators
  }

  /** The successful attempts of a failed call. */
  function Done<C>(attempts: seq<Attempt<C>>): seq<Attempt<C>> {
    if |attempts| == 0 then [] else attempts[..|attempts| - 1]
  }

  /** The attempts before the failed one succeeded and are all compensable. */
  ghost predicate PartlyDone<C>(a: Actor, base: Row<C>, event: string, attempts: seq<Attempt<C>>) {
    && FailsLast(a, base, event, attempts) && UntilFailure(a, base, event, attempts).Some?
    && AllSucceed(Done(attempts)) && AllBound(a, ResolveTransitions(a.m, base.state, event), event, |attempts| - 1)
  }

  /** The context that a failed call has reached before it fails. */
  ghost function Working<C>(a: Actor, base: Row<C>, event: string, attempts: seq<Attempt<C>>): C {
    if PartlyDone(a, base, event, attempts) then UntilFailure(a, base, event, attempts).value.context else base.context
  }

  /** Updates that a rollback can undo. Marking, unlocking and giving up leave the context alone; a
      successful call is compensable in all its steps, and its `onDone` handlers leave the context
      alone; a failed call that only falls back has stored its steps right before, if it has any. */
  ghost predicate ForwardAt<C>(a: Actor, log: seq<Commit<C>>, j: nat)
    requires 0 < j < |log|
  {
    && 1 <= log[j].base <= j
    && var base := log[log[j].base - 1].row;
       match log[j].act
       case Begin(_) => true
       case Unlock => true
       case MarkFail => true
       case Succeed(event, attempts, dones) =>
         && AllSucceed(attempts) && AllBound(a, ResolveTransitions(a.m, base.state, event), event, |attempts|)
         && forall i :: 0 <= i < |dones| ==> dones[i].None?
       case Append(event, attempts) => PartlyDone(a, base, event, attempts) && Kept(a, log, j)
       case Fail(event, attempts, results) =>
         && PartlyDone(a, base, event, attempts) && results == []
         && (|attempts| == 1 || (SameRun(log, j) && log[j - 1].act == Append(event, attempts)))
       case _ => false
  }

  /** The context that the stored steps reached is not lost: their call commits it with its fallback, or
      it is the stored one. */
  ghost predicate Kept<C>(a: Actor, log: seq<Commit<C>>, j: nat)
    requires 0 < j < |log| && log[j].act.Append? && 1 <= log[j].base <= j
  {
    || FallsBack(log, j)
    || Working(a, log[log[j].base - 1].row, log[j].act.event, log[j].act.attempts) == log[j].row.context
  }

  ghost predicate FallsBack<C>(log: seq<Commit<C>>, j: nat)
    requires j < |log| && log[j].act.Append?
  {
    j + 1 < |log| && SameRun(log, j + 1) && log[j + 1].act == Fail(log[j].act.event, log[j].act.attempts, [])
  }

  /** The updates after version i up to version k are forward ones. */
  ghost predicate Forward<C>(a: Actor, log: seq<Commit<C>>, i: nat, k: nat) {
    0 < i <= k <= |log| && forall j: nat :: i <= j < k ==> ForwardAt(a, log, j)
  }

  /** Version i is the first one, or ended an unwinding. */
  ghost predicate Origin<C>(log: seq<Commit<C>>, i: nat) {
    0 < i <= |log| && if i > 1 then Ends(log[i - 1].act) else log[0].act.Create?
  }

  function StepContexts<C>(act: Act<C>): seq<C> {
    match act
    case Succeed(_, attempts, _) => if AllSucceed(attempts) then Contexts(attempts) else []
    case Append(_, attempts) => if AllSucceed(Done(attempts)) then Contexts(Done(attempts)) else []
    case _ => []
  }

  /** The context of version i and every context reached after it, step by step. */
  ghost function Trail<C>(log: seq<Commit<C>>, i: nat, k: nat): (trail: seq<C>)
    requires 0 < i <= k <= |log|
    ensures trail != [] && trail[0] == log[i - 1].row.context
    decreases k
  {
    if k == i then [log[i - 1].row.context] else Trail(log, i, k - 1) + StepContexts(log[k - 1].act)
  }

  /** The entries stored after version i. */
  ghost function Added<C>(writes: Rule<C>, log: seq<Commit<C>>, i: nat, k: nat): seq<Comp<C>>
    requires 0 < i <= k <= |log|
    decreases k
  {
    if k == i || !(1 <= log[k - 1].base < k) then []
    else
      var change := writes(log[log[k - 1].base - 1].row, log[k - 1].act);
      Added(writes, log, i, k - 1) + (if change.Some? then change.value.comps else [])
  }

  /** Each entry holds the context before its step, and the record the one after the last. */
  ghost predicate Fits<C>(comps: seq<Comp<C>>, trail: seq<C>, context: C) {
    && |trail| == |comps| + 1
    && (forall i :: 0 <= i < |comps| ==> comps[i].before == trail[i])
    && trail[|comps|] == context
  }

  lemma {:induction false} NoneIsStart<C>(results: seq<Option<C>>, start: C)
    requires forall i :: 0 <= i < |results| ==> results[i].None?
    ensures Latest(results, start) == start
    decreases |results|
  {
    if results != [] { NoneIsStart(results[..|results| - 1], start); }
  }

  lemma WorkFits<C>(a: Actor, event: string, matches: seq<Match>, attempts: seq<Attempt<C>>, base: Row<C>)
    requires AllSucceed(attempts) && AllBound(a, matches, event, |attempts|)
    requires Work(a, event, matches, attempts, Before(base)).Some?
    ensures var now := Work(a, event, matches, attempts, Before(base)).value;
      Fits(now.comps, [base.context] + Contexts(attempts), now.context)
  {
    var now := Work(a, event, matches, attempts, Before(base)).value;
    LastContext(a, event, matches, attempts, Before(base));
    AllAreBound(a, event, matches, |attempts|);
    forall i | 0 <= i < |now.comps| ensures now.comps[i].before == ([base.context] + Contexts(attempts))[i] {
      EntriesAreSnapshots(a, event, matches, attempts, Before(base), i);
      AllAreBound(a, event, matches, i);
    }
  }

  /** The successful attempts of a failed call continue the trail up to the working context. */
  lemma FailureFits<C>(a: Actor, base: Row<C>, event: string, attempts: seq<Attempt<C>>)
    requires PartlyDone(a, base, event, attempts)
    ensures Stored(Writes(a), base, event, attempts) == UntilFailure(a, base, event, attempts).value.comps
    ensures Fits(Stored(Writes(a), base, event, attempts), [base.context] + Contexts(Done(attempts)), Working(a, base, event, attempts))
  {
    WorkFits(a, event, ResolveTransitions(a.m, base.state, event), Done(attempts), base);
    RuleStores(a, base, event, attempts);
  }

  lemma FitsAppend<C>(comps: seq<Comp<C>>, trail: seq<C>, between: C, more: seq<Comp<C>>, steps: seq<C>, context: C)
    requires Fits(comps, trail, between) && Fits(more, [between] + steps, context)
    ensures Fits(comps + more, trail + steps, context)
  {
    forall i | 0 <= i < |comps + more| ensures (comps + more)[i].before == (trail + steps)[i] {
      if i >= |comps| { assert (comps + more)[i] == more[i - |comps|] && ([between] + steps)[i - |comps|] == (trail + steps)[i]; }
    }
  }

  // ---- The trail of a log ----

  /** The commit at k adds entries and contexts that fit; `now[k - 1]` is the context reached at
      version k. */
  ghost predicate FitsAt<C>(writes: Rule<C>, log: seq<Commit<C>>, now: seq<C>, k: nat)
    requires 0 < k < |log| == |now|
  {
    && 1 <= log[k].base <= k
    && var change := writes(log[log[k].base - 1].row, log[k].act);
       change.Some? && Fits(change.value.comps, [now[k - 1]] + StepContexts(log[k].act), now[k])
  }

  lemma {:induction false} TrailFits<C>(writes: Rule<C>, log: seq<Commit<C>>, now: seq<C>, i: nat, k: nat)
    requires |now| == |log| && 0 < i <= k <= |log| && now[i - 1] == log[i - 1].row.context
    requires forall j: nat :: i <= j < k ==> FitsAt(writes, log, now, j)
    ensures Fits(Added(writes, log, i, k), Trail(log, i, k), now[k - 1])
    decreases k
  {
    if k > i {
      TrailFits(writes, log, now, i, k - 1);
      assert FitsAt(writes, log, now, k - 1);
      OneMoreFits(writes, log, now, i, k - 1, Added(writes, log, i, k - 1), Trail(log, i, k - 1));
    }
  }

  lemma {:induction false} OneMoreFits<C>(writes: Rule<C>, log: seq<Commit<C>>, now: seq<C>, i: nat, k: nat, comps: seq<Comp<C>>, trail: seq<C>)
    requires |now| == |log| && 0 < i <= k < |log| && FitsAt(writes, log, now, k) && Fits(comps, trail, now[k - 1])
    requires comps == Added(writes, log, i, k) && trail == Trail(log, i, k)
    ensures Fits(Added(writes, log, i, k + 1), Trail(log, i, k + 1), now[k])
  {
    var change := writes(log[log[k].base - 1].row, log[k].act).value;
    FitsAppend(comps, trail, now[k - 1], change.comps, StepContexts(log[k].act), now[k]);
  }

  lemma {:induction false} AddedIs<C>(writes: Rule<C>, log: seq<Commit<C>>, i: nat, k: nat)
    requires 0 < i <= k <= |log| && forall j: nat :: i <= j < k ==> 1 <= log[j].base <= j
    ensures Appended(writes, log, k) == Appended(writes, log, i) + Added(writes, log, i, k)
    decreases k
  {
    if k > i {
      AddedIs(writes, log, i, k - 1);
      var change := writes(log[log[k - 1].base - 1].row, log[k - 1].act);
      var more := if change.Some? then change.value.comps else [];
      assert Appended(writes, log, k) == Appended(writes, log, k - 1) + more;
      Regroup(Appended(writes, log, i), Added(writes, log, i, k - 1), more);
    }
  }

  lemma Regroup<T>(a: seq<T>, b: seq<T>, c: seq<T>)
    ensures a + b + c == a + (b + c)
  {}

  /** The context reached at version k: that of the record, or the one its stored steps reached. */
  ghost function ReachedAt<C>(a: Actor, log: seq<Commit<C>>, k: nat): C
    requires 0 < k <= |log|
  {
    var c := log[k - 1];
    if k > 1 && c.act.Append? && 1 <= c.base < k then Working(a, log[c.base - 1].row, c.act.event, c.act.attempts)
    else c.row.context
  }

  ghost function EveryReached<C>(a: Actor, log: seq<Commit<C>>): seq<C> {
    seq(|log|, j requires 0 <= j < |log| => ReachedAt(a, log, j + 1))
  }

  /** The worker of a later commit read the record at version i or after it. */
  lemma BaseAfter<C>(writes: Rule<C>, log: seq<Commit<C>>, i: nat, k: nat)
    requires Logged(writes, log) && Origin(log, i) && i <= k < |log|
    ensures i <= log[k].base <= k
  {
    assert Chained(writes, log, k);
    assert Own(log, log[k].worker, log[k].base, k);
  }

  /** Unless the next commit is the fallback of a call that stored steps, the record has the context
      reached. */
  lemma StoredIsReached<C>(a: Actor, log: seq<Commit<C>>, i: nat, k: nat)
    requires Origin(log, i) && i <= k <= |log| && Forward(a, log, i, k)
    requires log[k - 1].act.Append? ==> !FallsBack(log, k - 1)
    ensures ReachedAt(a, log, k) == log[k - 1].row.context
  {
    if k > i { assert ForwardAt(a, log, k - 1); }
  }

  /** A commit's snapshot has the context of the record before it. */
  lemma SnapshotContext<C>(a: Actor, log: seq<Commit<C>>, k: nat)
    requires Logged(Writes(a), log) && 0 < k < |log|
    ensures 1 <= log[k].base <= k && log[k - 1].row.context == log[log[k].base - 1].row.context
  {
    OwnAt(Writes(a), log, k);
    DataUntouched(a, log, log[k].worker, log[k].base, k);
  }

  /** One successful call extends the trail by one context per entry. */
  lemma CallFits<C>(a: Actor, base: Row<C>, event: string, attempts: seq<Attempt<C>>, dones: seq<Option<C>>)
    requires AllSucceed(attempts) && AllBound(a, ResolveTransitions(a.m, base.state, event), event, |attempts|)
    requires forall i :: 0 <= i < |dones| ==> dones[i].None?
    requires WhatItWrites(a, base, Succeed(event, attempts, dones)).Some?
    ensures var change := WhatItWrites(a, base, Succeed(event, attempts, dones)).value;
      change.patch.context.Some? && Fits(change.comps, [base.context] + Contexts(attempts), change.patch.context.value)
  {
    var matches := ResolveTransitions(a.m, base.state, event);
    WorkFits(a, event, matches, attempts, base);
    NoneIsStart(dones, Work(a, event, matches, attempts, Before(base)).value.context);
  }

  lemma FailureWrites<C>(a: Actor, base: Row<C>, act: Act<C>)
    requires act.Fail? && WhatItWrites(a, base, act).Some?
    ensures FailsLast(a, base, act.event, act.attempts) && UntilFailure(a, base, act.event, act.attempts).Some?
    ensures WhatItWrites(a, base, act).value.patch.context
      == Some(Latest(act.results, UntilFailure(a, base, act.event, act.attempts).value.context))
    ensures WhatItWrites(a, base, act).value.comps == []
  {}

  lemma QuietWrites<C>(a: Actor, base: Row<C>, act: Act<C>)
    requires (act.Begin? || act.Unlock? || act.MarkFail?) && WhatItWrites(a, base, act).Some?
    ensures var change := WhatItWrites(a, base, act).value; change.patch.context.None? && change.comps == []
  {}

  lemma AppendWritesStored<C>(a: Actor, base: Row<C>, event: string, attempts: seq<Attempt<C>>)
    requires WhatItWrites(a, base, Append(event, attempts)).Some?
    ensures WhatItWrites(a, base, Append(event, attempts)).value.patch.context.None?
    ensures WhatItWrites(a, base, Append(event, attempts)).value.comps == Stored(Writes(a), base, event, attempts)
  {}

  lemma WrittenContext<C>(writes: Rule<C>, log: seq<Commit<C>>, k: nat)
    requires Logged(writes, log) && 0 < k < |log|
    ensures 1 <= log[k].base <= k
    ensures var change := writes(log[log[k].base - 1].row, log[k].act);
      change.Some? && log[k].row.context == Or(change.value.patch.context, log[k - 1].row.context)
  {
    assert Chained(writes, log, k);
  }

  /** The successful attempts of a call whose first attempt fails: none. */
  lemma AloneWorking<C>(a: Actor, base: Row<C>, event: string, attempts: seq<Attempt<C>>)
    requires PartlyDone(a, base, event, attempts) && |attempts| == 1
    ensures Working(a, base, event, attempts) == base.context
  {
    assert attempts[..0] == [];
  }

  lemma CommitFits<C>(a: Actor, log: seq<Commit<C>>, i: nat, k: nat)
    requires Logged(Writes(a), log) && Origin(log, i) && Forward(a, log, i, k + 1) && i <= k < |log|
    ensures FitsAt(Writes(a), log, EveryReached(a, log), k)
  {
    var c := log[k];
    SnapshotContext(a, log, k);
    var base := log[c.base - 1].row;
    assert ForwardAt(a, log, k);
    WrittenContext(Writes(a), log, k);
    assert EveryReached(a, log)[k - 1] == ReachedAt(a, log, k) && EveryReached(a, log)[k] == ReachedAt(a, log, k + 1);
    match c.act
    case Succeed(event, attempts, dones) =>
      StoredIsReached(a, log, i, k);
      CallFits(a, base, event, attempts, dones);
    case Append(event, attempts) =>
      StoredIsReached(a, log, i, k);
      FailureFits(a, base, event, attempts);
      AppendWritesStored(a, base, event, attempts);
    case Fail(event, attempts, results) =>
      FallbackReached(a, log, i, k);
      FailureWrites(a, base, c.act);
    case _ =>
      StoredIsReached(a, log, i, k);
      QuietWrites(a, base, c.act);
  }

  /** Before a fallback the trail has reached the working context of its call. */
  lemma {:induction false} FallbackReached<C>(a: Actor, log: seq<Commit<C>>, i: nat, k: nat)
    requires Logged(Writes(a), log) && Origin(log, i) && Forward(a, log, i, k + 1)
    requires i <= k < |log| && log[k].act.Fail? && 1 <= log[k].base <= k
    requires log[k - 1].row.context == log[log[k].base - 1].row.context
    ensures ReachedAt(a, log, k) == Working(a, log[log[k].base - 1].row, log[k].act.event, log[k].act.attempts)
  {
    var c := log[k];
    var d := log[k - 1];
    assert ForwardAt(a, log, k);
    if d.act == Append(c.act.event, c.act.attempts) && SameRun(log, k) {
      BaseAfter(Writes(a), log, i, k - 1);
    } else {
      StoredIsReached(a, log, i, k);
      AloneWorking(a, log[c.base - 1].row, c.act.event, c.act.attempts);
    }
  }

  /** Main result: over forward updates, the entries stored since version i fit the trail. */
  lemma ForwardFits<C>(a: Actor, log: seq<Commit<C>>, i: nat, k: nat)
    requires Logged(Writes(a), log) && Origin(log, i) && Forward(a, log, i, k)
    ensures Fits(Added(Writes(a), log, i, k), Trail(log, i, k), ReachedAt(a, log, k))
    ensures Appended(Writes(a), log, k) == Appended(Writes(a), log, i) + Added(Writes(a), log, i, k)
  {
    forall j: nat | i <= j < k ensures FitsAt(Writes(a), log, EveryReached(a, log), j) { CommitFits(a, log, i, j); }
    assert EveryReached(a, log)[i - 1] == ReachedAt(a, log, i) && EveryReached(a, log)[k - 1] == ReachedAt(a, log, k);
    FitsAdd(Writes(a), log, EveryReached(a, log), i, k);
  }

  lemma {:induction false} FitsAdd<C>(writes: Rule<C>, log: seq<Commit<C>>, now: seq<C>, i: nat, k: nat)
    requires |now| == |log| && 0 < i <= k <= |log| && now[i - 1] == log[i - 1].row.context
    requires forall j: nat :: i <= j < k ==> FitsAt(writes, log, now, j)
    ensures Fits(Added(writes, log, i, k), Trail(log, i, k), now[k - 1])
    ensures Appended(writes, log, k) == Appended(writes, log, i) + Added(writes, log, i, k)
  {
    TrailFits(writes, log, now, i, k);
    forall j: nat | i <= j < k ensures 1 <= log[j].base <= j { assert FitsAt(writes, log, now, j); }
    AddedIs(writes, log, i, k);
  }

  // ---- Compensators that invert their steps ----

  /** The compensator of each entry from `lo` on takes its step back. */
  ghost predicate InvertsFrom<C>(h: Handlers<C>, comps: seq<Comp<C>>, lo: nat, trail: seq<C>) {
    && lo <= |comps| && |trail| == |comps| - lo + 1
    && forall i :: lo <= i < |comps| ==>
         Saga.Compensated(h, Entry(i + 1, Item(comps[i], false)), trail[i - lo + 1]) == trail[i - lo]
  }

  lemma EntriesFirst<C>(comps: seq<Comp<C>>, lo: nat)
    requires lo < |comps|
    ensures var n := |comps| - 1; Entries(comps, lo) == [Entry(n + 1, Item(comps[n], false))] + Entries(comps[..n], lo)
  {
    var n := |comps| - 1;
    BetweenEntries(comps, lo, n + 1);
    BetweenEntries(comps[..n], lo, n);
  }

  /** Unwinding the entries from `lo` on restores the context from before the first of them. */
  lemma {:induction false} EntriesUnwind<C>(h: Handlers<C>, comps: seq<Comp<C>>, lo: nat, trail: seq<C>)
    requires InvertsFrom(h, comps, lo, trail)
    ensures Unwound(h, Entries(comps, lo), trail[|comps| - lo]) == trail[0]
    decreases |comps|
  {
    if lo < |comps| {
      var n := |comps| - 1;
      EntriesFirst(comps, lo);
      assert InvertsFrom(h, comps[..n], lo, trail[..|trail| - 1]) by {
        assert forall i :: lo <= i < n ==> comps[..n][i] == comps[i];
      }
      EntriesUnwind(h, comps[..n], lo, trail[..|trail| - 1]);
      assert Entries(comps, lo)[1..] == Entries(comps[..n], lo);
    } else {
      BetweenEntries(comps, lo, lo);
    }
  }

  // ---- The record that an unwinding leaves ----

  lemma {:induction false} RestartIs<C>(log: seq<Commit<C>>, k: nat)
    requires 0 < k <= |log| && log[0].act.Create?
    ensures Origin(log, RestartAt(log, k))
    decreases k
  {
    if k > 1 { RestartIs(log, k - 1); }
  }

  lemma EndingWrites<C>(a: Actor, base: Row<C>, act: Act<C>)
    requires Ends(act) && WhatItWrites(a, base, act).Some?
    ensures WhatItWrites(a, base, act).value.comps == []
  {}

  /** All entries up to the last finished unwinding are past. */
  lemma {:induction false} PastIs<C>(a: Actor, log: seq<Commit<C>>, k: nat)
    requires Logged(Writes(a), log) && 0 < k <= |log| && log[0].act.Create?
    ensures Origin(log, RestartAt(log, k)) && Past(Writes(a), log, k) == |Appended(Writes(a), log, RestartAt(log, k))|
  {
    var i := RestartAt(log, k);
    RestartIs(log, k);
    if i > 1 {
      WrittenContext(Writes(a), log, i - 1);
      EndingWrites(a, log[log[i - 1].base - 1].row, log[i - 1].act);
    }
  }

  /** The worker that ends an unwinding read a record that has the context reached. */
  lemma {:induction false} BaseIsReached<C>(a: Actor, log: seq<Commit<C>>, i: nat, k: nat)
    requires Logged(Writes(a), log) && Origin(log, i) && i < k < |log| && log[k - 1].act.Compensate? && SameRun(log, k)
    requires Forward(a, log, i, log[k].base)
    ensures i <= log[k].base < k && ReachedAt(a, log, log[k].base) == log[log[k].base - 1].row.context
  {
    BaseAfter(Writes(a), log, i, k);
    BaseAfter(Writes(a), log, i, k - 1);
    RunStarts(Writes(a), log, i, k);
    StoredIsReached(a, log, i, log[k].base);
  }

  /** A worker's first update does not continue a run of the commit before it. */
  lemma {:induction false} RunStarts<C>(writes: Rule<C>, log: seq<Commit<C>>, i: nat, k: nat)
    requires Logged(writes, log) && Origin(log, i) && k < |log| && i <= log[k].base < k
    ensures log[log[k].base - 1].act.Append? ==> !FallsBack(log, log[k].base - 1)
  {
    var base := log[k].base;
    assert Chained(writes, log, k);
    assert log[base].base == base;
    if i < base { BaseAfter(writes, log, i, base - 1); }
  }

  lemma FailureLeaves<C>(a: Actor, log: seq<Commit<C>>, k: nat)
    requires Logged(Writes(a), log) && 0 < k < |log| && log[k].act.Fail?
    ensures var c := log[k];
      && 1 <= c.base <= k && FailsLast(a, log[c.base - 1].row, c.act.event, c.act.attempts)
      && UntilFailure(a, log[c.base - 1].row, c.act.event, c.act.attempts).Some?
      && c.row.context == Latest(c.act.results, UntilFailure(a, log[c.base - 1].row, c.act.event, c.act.attempts).value.context)
  {
    WrittenContext(Writes(a), log, k);
    FailureWrites(a, log[log[k].base - 1].row, log[k].act);
  }

  lemma RecoveryWrites<C>(a: Actor, base: Row<C>, act: Act<C>)
    requires act.Recover?
    ensures WhatItWrites(a, base, act).Some? && WhatItWrites(a, base, act).value.patch.context == Some(Latest(act.results, base.context))
  {}

  lemma RecoveryLeaves<C>(a: Actor, log: seq<Commit<C>>, k: nat)
    requires Logged(Writes(a), log) && 0 < k < |log| && log[k].act.Recover?
    ensures 1 <= log[k].base <= k && log[k].row.context == Latest(log[k].act.results, log[log[k].base - 1].row.context)
  {
    WrittenContext(Writes(a), log, k);
    RecoveryWrites(a, log[log[k].base - 1].row, log[k].act);
  }

  /** The entries and the trail that the unwinding of a failed call goes back. */
  lemma {:induction false} FailureTrail<C>(a: Actor, log: seq<Commit<C>>, i: nat, k: nat)
    requires Logged(Writes(a), log) && Origin(log, i) && i < k < |log| && log[k - 1].act.Compensate? && SameRun(log, k)
    requires log[k].act.Fail? && Forward(a, log, i, log[k].base) && GatheredAt(Writes(a), log, k)
    requires PartlyDone(a, log[log[k].base - 1].row, log[k].act.event, log[k].act.attempts)
    ensures var c := log[k]; var base := log[c.base - 1].row; var lo := |Appended(Writes(a), log, i)|;
      && i <= c.base < k && lo <= |Appended(Writes(a), log, k)|
      && Fits(Appended(Writes(a), log, k)[lo..], Trail(log, i, c.base) + Contexts(Done(c.act.attempts)),
              Working(a, base, c.act.event, c.act.attempts))
  {
    var c := log[k];
    var base := log[c.base - 1].row;
    BaseIsReached(a, log, i, k);
    ForwardFits(a, log, i, c.base);
    FailureFits(a, base, c.act.event, c.act.attempts);
    var stored := Stored(Writes(a), base, c.act.event, c.act.attempts);
    FitsAppend(Added(Writes(a), log, i, c.base), Trail(log, i, c.base), base.context, stored, Contexts(Done(c.act.attempts)),
               Working(a, base, c.act.event, c.act.attempts));
    Suffix(Appended(Writes(a), log, k), Appended(Writes(a), log, i), Added(Writes(a), log, i, c.base), stored);
  }

  /** And those of a sweep. */
  lemma {:induction false} RecoveryTrail<C>(a: Actor, log: seq<Commit<C>>, i: nat, k: nat)
    requires Logged(Writes(a), log) && Origin(log, i) && i < k < |log| && log[k - 1].act.Compensate? && SameRun(log, k)
    requires log[k].act.Recover? && Forward(a, log, i, log[k].base) && GatheredAt(Writes(a), log, k)
    ensures var c := log[k]; var lo := |Appended(Writes(a), log, i)|;
      && i <= c.base < k && lo <= |Appended(Writes(a), log, k)|
      && Fits(Appended(Writes(a), log, k)[lo..], Trail(log, i, c.base), log[c.base - 1].row.context)
  {
    BaseIsReached(a, log, i, k);
    ForwardFits(a, log, i, log[k].base);
    assert Appended(Writes(a), log, i) + Added(Writes(a), log, i, log[k].base) + [] == Appended(Writes(a), log, k);
    Suffix(Appended(Writes(a), log, k), Appended(Writes(a), log, i), Added(Writes(a), log, i, log[k].base), []);
    assert Added(Writes(a), log, i, log[k].base) + [] == Added(Writes(a), log, i, log[k].base);
  }

  /** Entries that fit a trail unwind to its start. */
  lemma {:induction false} TrailUnwinds<C>(h: Handlers<C>, comps: seq<Comp<C>>, lo: nat, trail: seq<C>, context: C)
    requires lo <= |comps| && Fits(comps[lo..], trail, context) && InvertsFrom(h, comps, lo, trail)
    ensures Unwound(h, Entries(comps, lo), context) == trail[0]
  {
    EntriesUnwind(h, comps, lo, trail);
  }

  lemma Suffix<T>(all: seq<T>, past: seq<T>, added: seq<T>, more: seq<T>)
    requires all == past + added + more
    ensures |past| <= |all| && all[|past|..] == added + more
  {}

  /** What an unwinding leaves, from what its compensators returned. */
  lemma {:induction false} UnwoundRecord<C>(a: Actor, log: seq<Commit<C>>, h: Handlers<C>, k: nat, start: C)
    requires Logged(Writes(a), log) && 1 < k < |log| && SameRun(log, k) && Ends(log[k].act) && 1 <= log[k].base < k
    requires Answers(h, Starts(a), Writes(a), log, k - 1)
    requires start == StartOf(a, log[log[k].base - 1].row, if log[k].act.Recover? then Sweep else Why.Step(log[k].act.event, log[k].act.attempts))
    ensures log[k].row.context == Unwound(h, Entries(Appended(Writes(a), log, k), Past(Writes(a), log, k)), start)
  {
    UnwoundIsLatest(h, Entries(Appended(Writes(a), log, k), Past(Writes(a), log, k)), start);
    if log[k].act.Recover? { RecoveryLeaves(a, log, k); } else { FailureLeaves(a, log, k); }
  }

  lemma {:induction false} FailedRecord<C>(a: Actor, log: seq<Commit<C>>, h: Handlers<C>, i: nat, k: nat)
    requires Logged(Writes(a), log) && log[0].act.Create? && 1 < k < |log| && i == RestartAt(log, k) && i < k
    requires log[k - 1].act.Compensate? && SameRun(log, k) && log[k].act.Fail? && Forward(a, log, i, log[k].base)
    requires i <= log[k].base && PartlyDone(a, log[log[k].base - 1].row, log[k].act.event, log[k].act.attempts)
    requires InvertsFrom(h, Appended(Writes(a), log, k), |Appended(Writes(a), log, i)|,
                         Trail(log, i, log[k].base) + Contexts(Done(log[k].act.attempts)))
    requires GatheredAt(Writes(a), log, k) && Answers(h, Starts(a), Writes(a), log, k - 1)
    ensures log[k].row.context == log[i - 1].row.context
  {
    PastIs(a, log, k);
    FailedFrom(a, log, h, i, k, Trail(log, i, log[k].base) + Contexts(Done(log[k].act.attempts)));
  }

  lemma FailedFrom<C>(a: Actor, log: seq<Commit<C>>, h: Handlers<C>, i: nat, k: nat, trail: seq<C>)
    requires Logged(Writes(a), log) && Origin(log, i) && i < k < |log| && Past(Writes(a), log, k) == |Appended(Writes(a), log, i)|
    requires log[k - 1].act.Compensate? && SameRun(log, k) && log[k].act.Fail? && Forward(a, log, i, log[k].base)
    requires i <= log[k].base && PartlyDone(a, log[log[k].base - 1].row, log[k].act.event, log[k].act.attempts)
    requires InvertsFrom(h, Appended(Writes(a), log, k), |Appended(Writes(a), log, i)|, trail)
    requires trail == Trail(log, i, log[k].base) + Contexts(Done(log[k].act.attempts))
    requires GatheredAt(Writes(a), log, k) && Answers(h, Starts(a), Writes(a), log, k - 1)
    ensures log[k].row.context == trail[0]
  {
    FailureTrail(a, log, i, k);
    FailureUnwinds(a, log, h, i, k, trail, log[log[k].base - 1].row);
  }

  lemma FailureUnwinds<C>(a: Actor, log: seq<Commit<C>>, h: Handlers<C>, i: nat, k: nat, trail: seq<C>, base: Row<C>)
    requires Logged(Writes(a), log) && i <= k < |log| && 1 <= log[k].base < k && SameRun(log, k) && log[k].act.Fail?
    requires base == log[log[k].base - 1].row && PartlyDone(a, base, log[k].act.event, log[k].act.attempts)
    requires Answers(h, Starts(a), Writes(a), log, k - 1)
    requires var comps := Appended(Writes(a), log, k); var lo := |Appended(Writes(a), log, i)|;
      && Past(Writes(a), log, k) == lo <= |comps| && InvertsFrom(h, comps, lo, trail)
      && Fits(comps[lo..], trail, Working(a, base, log[k].act.event, log[k].act.attempts))
    ensures log[k].row.context == trail[0]
  {
    FailureStart(a, base, log[k].act.event, log[k].act.attempts);
    UnwindsToStart(a, log, h, i, k, trail, Working(a, base, log[k].act.event, log[k].act.attempts));
  }

  lemma {:induction false} RecoveredRecord<C>(a: Actor, log: seq<Commit<C>>, h: Handlers<C>, i: nat, k: nat)
    requires Logged(Writes(a), log) && log[0].act.Create? && 1 < k < |log| && i == RestartAt(log, k) && i < k
    requires log[k - 1].act.Compensate? && SameRun(log, k) && log[k].act.Recover? && Forward(a, log, i, log[k].base)
    requires i <= log[k].base && InvertsFrom(h, Appended(Writes(a), log, k), |Appended(Writes(a), log, i)|, Trail(log, i, log[k].base))
    requires GatheredAt(Writes(a), log, k) && Answers(h, Starts(a), Writes(a), log, k - 1)
    ensures log[k].row.context == log[i - 1].row.context
  {
    PastIs(a, log, k);
    RecoveredFrom(a, log, h, i, k, Trail(log, i, log[k].base));
  }

  lemma RecoveredFrom<C>(a: Actor, log: seq<Commit<C>>, h: Handlers<C>, i: nat, k: nat, trail: seq<C>)
    requires Logged(Writes(a), log) && Origin(log, i) && i < k < |log| && Past(Writes(a), log, k) == |Appended(Writes(a), log, i)|
    requires log[k - 1].act.Compensate? && SameRun(log, k) && log[k].act.Recover? && Forward(a, log, i, log[k].base)
    requires i <= log[k].base && trail == Trail(log, i, log[k].base)
    requires InvertsFrom(h, Appended(Writes(a), log, k), |Appended(Writes(a), log, i)|, trail)
    requires GatheredAt(Writes(a), log, k) && Answers(h, Starts(a), Writes(a), log, k - 1)
    ensures log[k].row.context == trail[0]
  {
    RecoveryTrail(a, log, i, k);
    UnwindsToStart(a, log, h, i, k, trail, log[log[k].base - 1].row.context);
  }

  lemma FailureStart<C>(a: Actor, base: Row<C>, event: string, attempts: seq<Attempt<C>>)
    requires PartlyDone(a, base, event, attempts)
    ensures StartOf(a, base, Why.Step(event, attempts)) == Working(a, base, event, attempts)
  {}

  /** The unwinding that ends at k, along a trail that its entries fit. */
  lemma UnwindsToStart<C>(a: Actor, log: seq<Commit<C>>, h: Handlers<C>, i: nat, k: nat, trail: seq<C>, start: C)
    requires Logged(Writes(a), log) && 1 < k < |log| && i <= |log| && SameRun(log, k) && Ends(log[k].act) && 1 <= log[k].base < k
    requires Answers(h, Starts(a), Writes(a), log, k - 1)
    requires start == StartOf(a, log[log[k].base - 1].row, if log[k].act.Recover? then Sweep else Why.Step(log[k].act.event, log[k].act.attempts))
    requires var comps := Appended(Writes(a), log, k); var lo := |Appended(Writes(a), log, i)|;
      && Past(Writes(a), log, k) == lo <= |comps| && Fits(comps[lo..], trail, start) && InvertsFrom(h, comps, lo, trail)
    ensures log[k].row.context == trail[0]
  {
    UnwoundRecord(a, log, h, k, start);
    TrailUnwinds(h, Appended(Writes(a), log, k), |Appended(Writes(a), log, i)|, trail, start);
  }

  /** `log` is that of a run in which every compensator call returns what the handlers return, and no
      worker goes on unwinding after another one has changed the record. */
  ghost predicate LogOf<C(!new)>(a: Actor, first: Row<C>, actions: seq<Action<C>>, h: Handlers<C>, log: seq<Commit<C>>) {
    && h.registered == a.registered && AnsweredRun(a, h, Starts(a), Writes(a), Started(first), actions)
    && log == Protocol.Run(a, Writes(a), Started(first), actions).log
  }

  /** The commit at k ends an unwinding, the last one before it was finished, and version i is the one
      that it left, or the first version. */
  ghost predicate EndsFresh<C>(log: seq<Commit<C>>, i: nat, k: nat) {
    && 1 < k < |log| && FreshAt(log, k - 1) && SameRun(log, k)
    && i == RestartAt(log, k) && i <= log[k].base <= k
  }

  /** What a run provides for such an unwinding. */
  lemma RunProvides<C(!new)>(a: Actor, first: Row<C>, actions: seq<Action<C>>, h: Handlers<C>, log: seq<Commit<C>>, i: nat, k: nat)
    requires LogOf(a, first, actions, h, log) && EndsFresh(log, i, k)
    ensures Logged(Writes(a), log) && log[0].act.Create? && log[0].row.context == first.context && i < k
    ensures GatheredAt(Writes(a), log, k) && Answers(h, Starts(a), Writes(a), log, k - 1)
  {
    var kc: nat := k - 1;
    SingleChain(a, first, actions);
    RunExtends(a, Writes(a), Started(first), actions);
    assert log[0] == Started(first).log[0];
    UnwindingIsWhole(a, h, first, actions);
    EveryFailureGathered(a, first, actions);
    assert FreshAt(log, kc);
  }

  /** Main result on failed calls: after any interleaving of forward updates, an unwinding of a failed
      call, which may have served some matches before it failed, leaves the context from before them:
      that of the last finished unwinding, or the one the transaction was started with. Each
      compensator inverts its own step. */
  lemma RollbackUndoesFailure<C(!new)>(a: Actor, first: Row<C>, actions: seq<Action<C>>, h: Handlers<C>, log: seq<Commit<C>>, i: nat, k: nat)
    requires LogOf(a, first, actions, h, log) && EndsFresh(log, i, k) && log[k].act.Fail? && Forward(a, log, i, log[k].base)
    requires PartlyDone(a, log[log[k].base - 1].row, log[k].act.event, log[k].act.attempts)
    requires InvertsFrom(h, Appended(Writes(a), log, k), |Appended(Writes(a), log, i)|,
                         Trail(log, i, log[k].base) + Contexts(Done(log[k].act.attempts)))
    ensures log[k].row.context == log[i - 1].row.context
    ensures i == 1 ==> log[k].row.context == first.context
  {
    RunProvides(a, first, actions, h, log, i, k);
    FailedRecord(a, log, h, i, k);
  }

  /** Main result on recovery sweeps: the same for the unwinding of a sweep. Being forward, no call was
      interrupted whose stored steps had reached another context than the stored one. */
  lemma RollbackUndoesRecovery<C(!new)>(a: Actor, first: Row<C>, actions: seq<Action<C>>, h: Handlers<C>, log: seq<Commit<C>>, i: nat, k: nat)
    requires LogOf(a, first, actions, h, log) && EndsFresh(log, i, k) && log[k].act.Recover? && Forward(a, log, i, log[k].base)
    requires InvertsFrom(h, Appended(Writes(a), log, k), |Appended(Writes(a), log, i)|, Trail(log, i, log[k].base))
    ensures log[k].row.context == log[i - 1].row.context
    ensures i == 1 ==> log[k].row.context == first.context
  {
    RunProvides(a, first, actions, h, log, i, k);
    RecoveredRecord(a, log, h, i, k);
  }
}
