/** What each update of a run leaves: the whole record, field by field, and what each recovery mode of
    a sweep does with it (runtime/actor.ts, executeTransitionOnSnapshot and executeRecoverySweep). */
module Commits {
  import opened Records
  import opened Machines
  import opened Entry
  import opened Matching
  import opened Engine
  import opened Completion
  import opened Stores
  import opened Calls
  import opened Protocol
  import opened ProtocolLaws

  // ---- Contexts ----

  /** `c` is the last context that was returned, or `start` when none was. */
  ghost predicate LastReturned<C>(results: seq<Option<C>>, start: C, c: C) {
    || ((forall i :: 0 <= i < |results| ==> results[i].None?) && c == start)
    || exists i :: 0 <= i < |results| && results[i] == Some(c) && forall j :: i < j < |results| ==> results[j].None?
  }

  lemma {:induction false} LatestIs<C>(results: seq<Option<C>>, start: C)
    ensures LastReturned(results, start, Latest(results, start))
    decreases |results|
  {
    if results != [] {
      var n := |results| - 1;
      if results[n].None? {
        LatestIs(results[..n], start);
        var c := Latest(results[..n], start);
        if !(forall i :: 0 <= i < n ==> results[..n][i].None?) {
          var i :| 0 <= i < n && results[..n][i] == Some(c) && forall j :: i < j < n ==> results[..n][j].None?;
          assert results[i] == Some(c);
          forall j | i < j < |results| ensures results[j].None? { if j < n { assert results[..n][j].None?; } }
        } else {
          forall i | 0 <= i < |results| ensures results[i].None? { if i < n { assert results[..n][i].None?; } }
        }
      }
    }
  }

  /** The context that the last of these attempts returned. */
  function LastContextOf<C>(attempts: seq<Attempt<C>>, start: C): C {
    if attempts != [] && attempts[|attempts| - 1].Succeeded? then attempts[|attempts| - 1].context else start
  }

  lemma WorkContext<C>(a: Actor, event: string, matches: seq<Match>, attempts: seq<Attempt<C>>, start: Local<C>)
    requires |attempts| <= |matches| && Work(a, event, matches, attempts, start).Some?
    ensures Work(a, event, matches, attempts, start).value.context == LastContextOf(attempts, start.context)
    ensures attempts != [] ==> attempts[|attempts| - 1].Succeeded?
  {
    if attempts != [] {
      var k := |attempts| - 1;
      assert attempts[..k] + [attempts[k]] == attempts;
      WorkExtends(a, event, matches, attempts[..k], attempts[k], start);
    }
  }

  // ---- One update ----

  /** The whole record that update `act` leaves after `prev`. The end of a call is described up to its
      state and its status. */
  ghost predicate Leaves<C>(prev: Row<C>, act: Act<C>, row: Row<C>) {
    match act
    case Create => false
    case Begin(event) => row == Row(prev.state, prev.context, InFlight, Some(event), true, prev.version + 1)
    case Append(_, _) => row == Row(prev.state, prev.context, prev.status, prev.activeStep, prev.leased, prev.version + 1)
    case Compensate => row == Row(prev.state, prev.context, Compensating, prev.activeStep, prev.leased, prev.version + 1)
    case Succeed(_, attempts, dones) =>
      && row == Row(row.state, row.context, row.status, None, false, prev.version + 1)
      && LastReturned(dones, LastContextOf(attempts, prev.context), row.context)
    case Fail(_, attempts, results) =>
      && row == Row(row.state, row.context, row.status, None, false, prev.version + 1)
      && attempts != [] && attempts[|attempts| - 1].Failed?
      && LastReturned(results, LastContextOf(attempts[..|attempts| - 1], prev.context), row.context)
    case MarkFail => row == Row(Leaf("error"), prev.context, Completion.Failed, None, false, prev.version + 1)
    case Recover(results) =>
      && row == Row(Leaf("error"), row.context, Compensated, None, false, prev.version + 1)
      && LastReturned(results, prev.context, row.context)
    case Unlock => row == Row(prev.state, prev.context, Idle, None, false, prev.version + 1)
  }

  lemma SucceedPatch<C>(a: Actor, base: Row<C>, event: string, attempts: seq<Attempt<C>>, dones: seq<Option<C>>)
    requires WhatItWrites(a, base, Succeed(event, attempts, dones)).Some?
    ensures var now := Work(a, event, ResolveTransitions(a.m, base.state, event), attempts, Calls.Before(base));
      var p := WhatItWrites(a, base, Succeed(event, attempts, dones)).value.patch;
      && |attempts| <= |ResolveTransitions(a.m, base.state, event)| && now.Some?
      && p.context == Some(Latest(dones, now.value.context)) && p.activeStep == Some(None) && p.leased == Some(false)
      && p.state.Some? && p.status.Some?
  {}

  lemma SucceedLeaves<C>(a: Actor, prev: Row<C>, base: Row<C>, event: string, attempts: seq<Attempt<C>>, dones: seq<Option<C>>, p: Patch<C>)
    requires WhatItWrites(a, base, Succeed(event, attempts, dones)).Some? && prev.context == base.context
    requires p == WhatItWrites(a, base, Succeed(event, attempts, dones)).value.patch
    ensures Leaves(prev, Succeed(event, attempts, dones), Patched(prev, p))
  {
    SucceedPatch(a, base, event, attempts, dones);
    var matches := ResolveTransitions(a.m, base.state, event);
    WorkContext(a, event, matches, attempts, Calls.Before(base));
    LatestIs(dones, LastContextOf(attempts, prev.context));
  }

  lemma FailLeaves<C>(a: Actor, prev: Row<C>, base: Row<C>, act: Act<C>)
    requires act.Fail? && WhatItWrites(a, base, act).Some? && prev.context == base.context
    ensures Leaves(prev, act, Patched(prev, WhatItWrites(a, base, act).value.patch))
  {
    var matches := ResolveTransitions(a.m, base.state, act.event);
    var tried := act.attempts[..|act.attempts| - 1];
    WorkContext(a, act.event, matches, tried, Calls.Before(base));
    LatestIs(act.results, Work(a, act.event, matches, tried, Calls.Before(base)).value.context);
  }

  /** One update, whose worker read the data of the record before it. */
  lemma UpdateLeaves<C>(a: Actor, prev: Row<C>, base: Row<C>, act: Act<C>)
    requires WhatItWrites(a, base, act).Some? && prev.context == base.context
    requires act.Unlock? ==> prev == base
    ensures Leaves(prev, act, Patched(prev, WhatItWrites(a, base, act).value.patch))
  {
    match act
    case Succeed(event, attempts, dones) =>
      SucceedLeaves(a, prev, base, event, attempts, dones, WhatItWrites(a, base, act).value.patch);
    case Fail(_, _, _) => FailLeaves(a, prev, base, act);
    case Recover(results) => LatestIs(results, base.context);
    case _ =>
  }

  // ---- Every update of a run ----

  ghost predicate LeftAt<C>(log: seq<Commit<C>>, k: nat)
    requires 0 < k < |log|
  {
    Leaves(log[k - 1].row, log[k].act, log[k].row)
  }

  lemma CommitLeaves<C>(a: Actor, writes: Rule<C>, log: seq<Commit<C>>, k: nat)
    requires writes == Writes(a) && Logged(writes, log) && 0 < k < |log|
    ensures LeftAt(log, k)
  {
    var c := log[k];
    var prev := ChainedRow(writes, log, k);
    DataUntouched(a, log, c.worker, c.base, k);
    UpdateLeaves(a, prev, log[c.base - 1].row, c.act);
  }

  lemma ChainedRow<C>(writes: Rule<C>, log: seq<Commit<C>>, k: nat) returns (prev: Row<C>)
    requires Logged(writes, log) && 0 < k < |log|
    ensures prev == log[k - 1].row && Own(log, log[k].worker, log[k].base, k)
    ensures log[k].act.Unlock? ==> prev == log[log[k].base - 1].row
    ensures var change := writes(log[log[k].base - 1].row, log[k].act);
      change.Some? && log[k].row == Patched(prev, change.value.patch)
  {
    assert Chained(writes, log, k);
    prev := log[k - 1].row;
  }

  /** Main result: in every run, each update leaves exactly this record. MARK_FAIL leaves `error`, FAILED and
      the context it found; COMPENSATE ends with `error`, COMPENSATED and the context its handlers
      returned; CONTINUE leaves IDLE, with the state and the context it found. */
  lemma EveryCommit<C>(a: Actor, first: Row<C>, actions: seq<Action<C>>)
    ensures var s := Run(a, Writes(a), Started(first), actions);
      && |s.log| > 0 && (s.tx.Some? ==> s.tx.value.row == s.log[|s.log| - 1].row)
      && forall k :: 0 < k < |s.log| ==> LeftAt(s.log, k)
  {
    var log := Run(a, Writes(a), Started(first), actions).log;
    SingleChain(a, first, actions);
    forall k | 0 < k < |log| ensures LeftAt(log, k) { CommitLeaves(a, Writes(a), log, k); }
  }

  // ---- The status at the end of a call ----

  /** COMPENSATED exactly when the failing step asked for compensation; otherwise FAILED exactly in
      `error`, COMPLETED exactly when every active leaf is final elsewhere, and IDLE in all other cases. */
  ghost predicate Ends<C>(m: Machine, act: Act<C>, row: Row<C>) {
    act.Succeed? || (act.Fail? && act.attempts != [] && act.attempts[|act.attempts| - 1].Failed?) ==>
      && (row.status == Compensated <==> act.Fail? && act.attempts[|act.attempts| - 1].compensate)
      && (row.status == Completion.Failed <==> row.status != Compensated && row.state == Leaf("error"))
      && (row.status == Completed <==> row.status != Compensated && row.state != Leaf("error") && EverythingFinal(m, row.state))
      && row.status in {Compensated, Completion.Failed, Completed, Idle}
  }

  lemma SettlesBy<C>(a: Actor, base: Row<C>, act: Act<C>)
    requires WhatItWrites(a, base, act).Some? && (act.Succeed? || act.Fail?)
    ensures var p := WhatItWrites(a, base, act).value.patch;
      && p.state.Some? && (act.Fail? ==> act.attempts != [] && act.attempts[|act.attempts| - 1].Failed?)
      && p.status == Some(ResolveSettledStatus(a.m, p.state.value, act.Fail? && act.attempts[|act.attempts| - 1].compensate))
  {}

  lemma CommitEnds<C>(a: Actor, log: seq<Commit<C>>, k: nat)
    requires ActorOk(a) && Logged(Writes(a), log) && 0 < k < |log| && Running(a.m, log[k].row.state)
    ensures Ends(a.m, log[k].act, log[k].row)
  {
    var act := log[k].act;
    if act.Succeed? || act.Fail? {
      assert Chained(Writes(a), log, k);
      SettlesBy(a, log[log[k].base - 1].row, act);
      SettledStatusMeaning(a.m, log[k].row.state, act.Fail? && act.attempts[|act.attempts| - 1].compensate);
    }
  }

  ghost predicate EndsAt<C>(m: Machine, log: seq<Commit<C>>, k: nat)
    requires k < |log|
  {
    Ends(m, log[k].act, log[k].row)
  }

  /** Main result: what the status of every record that ends a call says. */
  lemma EveryEnd<C>(a: Actor, context: C, actions: seq<Action<C>>)
    requires ActorOk(a)
    ensures ResolveInitialState(a.m).Some?
    ensures var log := Run(a, Writes(a), Started(StartRow(a.m, context)), actions).log;
      AllGuarded(a.m, log) ==> forall k :: 0 <= k < |log| ==> EndsAt(a.m, log, k)
  {
    EveryRecordIff(a, context, actions);
    var log := Run(a, Writes(a), Started(StartRow(a.m, context)), actions).log;
    RunIsLogged(a, StartRow(a.m, context), actions);
    if AllGuarded(a.m, log) {
      forall k | 0 <= k < |log| ensures EndsAt(a.m, log, k) {
        assert SoundAt(a.m, log, k);
        if k > 0 { CommitEnds(a, log, k); } else { FirstIsCreate(a, StartRow(a.m, context), actions); }
      }
    }
  }

  lemma FirstIsCreate<C>(a: Actor, first: Row<C>, actions: seq<Action<C>>)
    ensures var log := Run(a, Writes(a), Started(first), actions).log; |log| > 0 && log[0].act.Create?
  {
    RunExtends(a, Writes(a), Started(first), actions);
    assert Started(first).log[0].act.Create?;
  }

  // ---- What a sweep does ----

  /** The active step of a record was stored by the call that put it in flight, and only appended
      compensations and COMPENSATING came in between. */
  lemma {:induction false} StepWasBegun<C>(a: Actor, log: seq<Commit<C>>, k: nat) returns (j: nat)
    requires Logged(Writes(a), log) && k < |log| && log[0].row.activeStep.None? && log[k].row.activeStep.Some?
    ensures 0 < j <= k && log[j].act == Begin(log[k].row.activeStep.value)
    ensures forall i :: j < i <= k ==> log[i].act.Append? || log[i].act.Compensate?
    decreases k
  {
    CommitLeaves(a, Writes(a), log, k);
    if log[k].act.Begin? { return k; }
    j := StepWasBegun(a, log, k - 1);
  }

  /** A sweep works on the record that it read, if it still stands. */
  lemma SweptIsCurrent<C>(writes: Rule<C>, s: World<C>, w: nat)
    requires Consistent(writes, s) && w in s.workers && (s.workers[w].Swept? || s.workers[w].Continuing?)
    requires s.tx.Some? && s.tx.value.row.version == s.workers[w].ver
    ensures s.workers[w].base == s.tx.value.row && s.workers[w].base == s.log[|s.log| - 1].row
  {
    assert Holds(s.log, w, s.workers[w]);
  }

  /** What the sweep of worker `w` makes of the record it read: on a stale version or without a record
      it stops. `begun` is the position of the update that stored the interrupted step. */
  ghost predicate SweepStep<C>(s: World<C>, w: nat, action: Action<C>, t: World<C>, begun: nat)
    requires w in s.workers && (s.workers[w].Swept? || s.workers[w].Continuing?)
  {
    var x := s.workers[w];
    var now := x.base;
    if s.tx.None? || s.tx.value.row.version != x.ver then
      t.tx == s.tx && t.log == s.log && t.workers == s.workers - {w}
    else
      && s.tx.value.row == now
      && (action.MarkFailed? ==>
            && t.tx == Some(Tx(Row(Leaf("error"), now.context, Completion.Failed, None, false, now.version + 1), s.tx.value.stack))
            && t.workers == s.workers - {w})
      && (action.StartRecovery? ==>
            && t.tx == Some(Tx(now.(status := Compensating, version := now.version + 1), s.tx.value.stack))
            && t.workers == s.workers[w := Unwinding(now, now.version + 1, Sweep, None, false, [])])
      && (action.ReleaseLock? ==>
            && t.tx == Some(Tx(Row(now.state, now.context, Idle, None, false, now.version + 1), s.tx.value.stack))
            && match now.activeStep
               case None => t.workers == s.workers - {w}
               case Some(event) =>
                 && t.workers == s.workers[w := Called(now, now.version + 1, event)]
                 && 0 < begun < |s.log| && s.log[begun].act == Begin(event))
  }

  lemma PendingNone<C>(stack: seq<Item<C>>)
    ensures stack + Pending([]) == stack
  {}

  lemma SweepUpdates<C>(a: Actor, writes: Rule<C>, s: World<C>, action: Action<C>, begun: nat)
    requires Consistent(writes, s) && action.w in s.workers
    requires action.MarkFailed? || action.StartRecovery? ==> s.workers[action.w].Swept?
    requires action.ReleaseLock? ==> s.workers[action.w].Continuing?
    requires action.MarkFailed? || action.StartRecovery? || action.ReleaseLock?
    requires SweepWrites(writes, s.workers[action.w].base)
    requires var x := s.workers[action.w];
      action.ReleaseLock? && x.base.activeStep.Some? && s.tx.Some? && s.tx.value.row.version == x.ver ==>
        0 < begun < |s.log| && s.log[begun].act == Begin(x.base.activeStep.value)
    ensures SweepStep(s, action.w, action, Perform(a, writes, s, action), begun)
  {
    if s.tx.Some? && s.tx.value.row.version == s.workers[action.w].ver {
      SweptIsCurrent(writes, s, action.w);
      PendingNone(s.tx.value.stack);
    }
  }

  /** The updates of the three modes, field by field. */
  ghost predicate SweepWrites<C>(writes: Rule<C>, base: Row<C>) {
    && writes(base, MarkFail) == Some(Change(Patch(Some(Leaf("error")), None, Some(Completion.Failed), Some(None), Some(false)), []))
    && writes(base, Compensate) == Some(Change(Patch(None, None, Some(Compensating), None, None), []))
    && writes(base, Unlock)
       == Some(Change(Patch(None, None, Some(Idle), if base.activeStep.Some? then Some(None) else None, Some(false)), []))
  }

  /** Main result on the recovery modes, in every run: MARK_FAIL, the start of COMPENSATE, and CONTINUE, which
      releases the lock and calls again the step that the interrupted call had stored. */
  lemma EverySweep<C>(a: Actor, first: Row<C>, actions: seq<Action<C>>, action: Action<C>) returns (begun: nat)
    requires first.activeStep.None?
    requires var s := Run(a, Writes(a), Started(first), actions);
      && action.w in s.workers
      && if action.ReleaseLock? then s.workers[action.w].Continuing?
         else (action.MarkFailed? || action.StartRecovery?) && s.workers[action.w].Swept?
    ensures var s := Run(a, Writes(a), Started(first), actions);
      SweepStep(s, action.w, action, Perform(a, Writes(a), s, action), begun)
  {
    var s := Run(a, Writes(a), Started(first), actions);
    var x := s.workers[action.w];
    RunIsLogged(a, first, actions);
    RunKeeps(a, Writes(a), Started(first), actions);
    begun := 0;
    if action.ReleaseLock? && x.base.activeStep.Some? && s.tx.Some? && s.tx.value.row.version == x.ver {
      SweptIsCurrent(Writes(a), s, action.w);
      begun := StepWasBegun(a, s.log, |s.log| - 1);
    }
    SweepUpdates(a, Writes(a), s, action, begun);
  }
}
