/** What COMPENSATED means, for every interleaving of transition calls, sweeps and crashes on one
    transaction (runtime/actor.ts): no entry is left to compensate. */
module Compensations {
  import opened Records
  import opened Completion
  import opened Stores
  import opened Calls
  import opened Protocol

  /** The status that an update writes: only one that ends an unwinding writes COMPENSATED, and it
      appends nothing. */
  ghost predicate StatusFits<C>(act: Act<C>, change: Option<Change<C>>) {
    change.Some? ==>
      var status := change.value.patch.status;
      && (if act.Append? then status.None? else status.Some?)
      && (act.Begin? ==> status == Some(InFlight))
      && (act.Fail? || act.Recover? ==> change.value.comps == [])
      && (status == Some(Completion.Compensated) ==> act.Recover? || (act.Fail? && Requested(act.attempts)))
  }

  ghost predicate WritesStatus<C(!new)>(writes: Rule<C>) {
    forall base, act :: StatusFits(act, writes(base, act))
  }

  predicate Requested<C>(attempts: seq<Attempt<C>>) {
    attempts != [] && attempts[|attempts| - 1].Failed? && attempts[|attempts| - 1].compensate
  }

  lemma RuleWritesStatus<C(!new)>(a: Actor, base: Row<C>, act: Act<C>)
    ensures StatusFits(act, WhatItWrites(a, base, act))
  {}

  predicate Pending<C>(stack: seq<Item<C>>, k: nat) {
    1 <= k <= |stack| && !stack[k - 1].done
  }

  /** Every pending entry is on the list. */
  ghost predicate Covers<C>(todo: seq<Stores.Entry<C>>, stack: seq<Item<C>>) {
    forall k :: Pending(stack, k) ==> exists i :: 0 <= i < |todo| && todo[i].stepSeq == k
  }

  /** A worker in a step knows that the record it holds is IN_FLIGHT; one that unwinds has every
      pending entry before it, as long as no one else has updated the record. */
  ghost predicate Attentive<C>(s: World<C>, x: Worker<C>) {
    && (x.Handling? || x.Failing? ==> 1 <= x.ver <= |s.log| && s.log[x.ver - 1].row.status == InFlight)
    && (x.Unwinding? && x.todo.Some? && s.tx.Some? && s.tx.value.row.version == x.ver ==>
          Covers(x.todo.value, s.tx.value.stack))
  }

  ghost predicate Honest<C>(s: World<C>) {
    s.tx.Some? && s.tx.value.row.status == Completion.Compensated ==> AllDone(s.tx.value.stack)
  }

  ghost predicate Safe<C>(writes: Rule<C>, s: World<C>) {
    Consistent(writes, s) && Honest(s) && forall w :: w in s.workers ==> Attentive(s, s.workers[w])
  }

  /** What an update needs besides its place in the chain. */
  ghost predicate Prepared<C>(s: World<C>, ver: nat, act: Act<C>) {
    s.tx.Some? && s.tx.value.row.version == ver ==>
      && (act.Append? ==> s.tx.value.row.status == InFlight)
      && (act.Recover? || (act.Fail? && Requested(act.attempts)) ==> AllDone(s.tx.value.stack))
  }

  ghost predicate Follows<C>(act: Act<C>, next: Worker<C>) {
    && (next.Handling? ==> act.Begin?) && (next.Failing? ==> act.Append?)
    && (next.Unwinding? ==> next.todo.None?)
  }

  lemma CommitIsHonest<C(!new)>(writes: Rule<C>, s: World<C>, w: nat, base: Row<C>, ver: nat, act: Act<C>, next: Option<Worker<C>>)
    requires WritesStatus(writes) && Honest(s) && Prepared(s, ver, act)
    ensures Honest(Update(writes, s, w, base, ver, act, next))
  {
    var change := writes(base, act);
    if change.Some? && s.tx.Some? && s.tx.value.row.version == ver && change.value.comps == [] {
      assert s.tx.value.stack + Stores.Pending<C>([]) == s.tx.value.stack;
    }
  }

  lemma UpdateIsSafe<C(!new)>(writes: Rule<C>, s: World<C>, w: nat, base: Row<C>, ver: nat, act: Act<C>, next: Option<Worker<C>>)
    requires WritesStatus(writes) && Safe(writes, s) && Prepared(s, ver, act)
    requires Own(s.log, w, base.version, ver) && s.log[base.version - 1].row == base
    requires act.Unlock? ==> ver == base.version
    requires next.Some? ==>
      && Preliminary(act) && !next.value.Expired? && !next.value.Swept? && !next.value.Continuing?
      && next.value.base == base && next.value.ver == ver + 1 && Follows(act, next.value)
    ensures Safe(writes, Update(writes, s, w, base, ver, act, next))
  {
    var after := Update(writes, s, w, base, ver, act, next);
    UpdateKeeps(writes, s, w, base, ver, act, next);
    CommitIsHonest(writes, s, w, base, ver, act, next);
    if after.log != s.log {
      assert |s.log| == ver && after.log == s.log + [after.log[ver]];
      forall v | v in after.workers ensures Attentive(after, after.workers[v]) {
        if v != w {
          assert Holds(s.log, v, s.workers[v]) && Attentive(s, s.workers[v]);
        }
      }
    }
  }

  lemma MarkCovers<C>(todo: seq<Stores.Entry<C>>, stack: seq<Item<C>>, k: nat)
    requires Covers(todo, stack)
    ensures Covers(todo, MarkItem(stack, k))
    ensures todo != [] && k == todo[0].stepSeq ==> Covers(todo[1..], MarkItem(stack, k))
  {
    forall j | Pending(MarkItem(stack, k), j)
      ensures exists i :: 0 <= i < |todo| && todo[i].stepSeq == j
      ensures todo != [] && k == todo[0].stepSeq ==> exists i :: 0 <= i < |todo[1..]| && todo[1..][i].stepSeq == j
    {
      assert Pending(stack, j) && j != k;
      var i :| 0 <= i < |todo| && todo[i].stepSeq == j;
      if todo != [] && k == todo[0].stepSeq { assert todo[1..][i - 1] == todo[i]; }
    }
  }

  lemma AllAreCovered<C>(stack: seq<Item<C>>)
    ensures Covers(Uncompensated(stack), stack)
  {
    UncompensatedAre(stack);
    forall k | Pending(stack, k) ensures exists i :: 0 <= i < |Uncompensated(stack)| && Uncompensated(stack)[i].stepSeq == k {
      assert IsPending(stack, Entry(k, stack[k - 1]));
    }
  }

  lemma CoveredByNothing<C>(stack: seq<Item<C>>)
    requires Covers([], stack)
    ensures AllDone(stack)
  {
    forall i | 0 <= i < |stack| ensures stack[i].done { assert !Pending(stack, i + 1); }
  }

  lemma UnwindIsSafe<C(!new)>(registered: set<string>, writes: Rule<C>, s: World<C>, action: Action<C>, x: Worker<C>)
    requires WritesStatus(writes) && Safe(writes, s) && action.w in s.workers && x == s.workers[action.w] && x.Unwinding?
    ensures Safe(writes, Unwind(registered, writes, s, action, x.base, x.ver, x.why, x.todo, x.called, x.results))
  {
    assert Holds(s.log, action.w, x) && Attentive(s, x);
    UnwindKeeps(registered, writes, s, action, x);
    if x.todo.None? {
      if s.tx.Some? { AllAreCovered(s.tx.value.stack); }
    } else if x.todo.value == [] {
      if s.tx.Some? && s.tx.value.row.version == x.ver { CoveredByNothing(s.tx.value.stack); }
      UpdateIsSafe(writes, s, action.w, x.base, x.ver,
        if x.why.Sweep? then Recover(x.results) else Fail(x.why.event, x.why.attempts, x.results), None);
    } else {
      MarkStepIsSafe(registered, writes, s, action, x);
    }
  }

  lemma MarkStepIsSafe<C(!new)>(registered: set<string>, writes: Rule<C>, s: World<C>, action: Action<C>, x: Worker<C>)
    requires Safe(writes, s) && action.w in s.workers && x == s.workers[action.w] && x.Unwinding? && x.todo.Some? && x.todo.value != []
    requires Consistent(writes, Unwind(registered, writes, s, action, x.base, x.ver, x.why, x.todo, x.called, x.results))
    ensures Safe(writes, Unwind(registered, writes, s, action, x.base, x.ver, x.why, x.todo, x.called, x.results))
  {
    assert Attentive(s, x);
    MarkIsSafe(s, x.todo.value[0].stepSeq);
    MarkedHead(s, x);
  }

  /** After a mark every worker is still attentive, and the record still honest. */
  lemma MarkIsSafe<C(!new)>(s: World<C>, k: nat)
    requires Honest(s) && forall w :: w in s.workers ==> Attentive(s, s.workers[w])
    ensures Honest(Marked(s, k)) && forall w :: w in s.workers ==> Attentive(Marked(s, k), s.workers[w])
  {
    if s.tx.Some? {
      forall v | v in s.workers ensures Attentive(Marked(s, k), s.workers[v]) {
        var y := s.workers[v];
        assert Attentive(s, y);
        if y.Unwinding? && y.todo.Some? { if Covers(y.todo.value, s.tx.value.stack) { MarkCovers(y.todo.value, s.tx.value.stack, k); } }
      }
    }
  }

  /** The worker that marked the head of its list has the rest before it. */
  lemma MarkedHead<C(!new)>(s: World<C>, x: Worker<C>)
    requires Attentive(s, x) && x.Unwinding? && x.todo.Some? && x.todo.value != []
    ensures Attentive(Marked(s, x.todo.value[0].stepSeq), x.(todo := Some(x.todo.value[1..])))
  {
    if s.tx.Some? && s.tx.value.row.version == x.ver { MarkCovers(x.todo.value, s.tx.value.stack, x.todo.value[0].stepSeq); }
  }

  lemma CalledIsSafe<C(!new)>(writes: Rule<C>, s: World<C>, w: nat, x: Worker<C>)
    requires WritesStatus(writes) && Safe(writes, s) && w in s.workers && x == s.workers[w] && x.Called?
    ensures Safe(writes, Mark(writes, s, w, x.base, x.ver, x.event))
  {
    assert Holds(s.log, w, x);
    UpdateIsSafe(writes, s, w, x.base, x.ver, Begin(x.event), Some(Handling(x.base, x.ver + 1, x.event)));
  }

  lemma ResumeIsSafe<C(!new)>(a: Actor, writes: Rule<C>, s: World<C>, action: Action<C>, x: Worker<C>)
    requires WritesStatus(writes) && Safe(writes, s) && action.w in s.workers && x == s.workers[action.w]
    ensures Safe(writes, Resume(a, writes, s, action, x))
  {
    var w := action.w;
    assert Holds(s.log, w, x) && Attentive(s, x);
    match x
    case Called(_, _, _) => CalledIsSafe(writes, s, w, x);
    case Handling(_, _, _) => HandlingIsSafe(a, writes, s, action, x);
    case Failing(_, _, _, _) => FailingIsSafe(a, writes, s, action, x);
    case Unwinding(_, _, _, _, _, _) => UnwindIsSafe(a.registered, writes, s, action, x);
    case Swept(_, _) => SweepIsSafe(writes, s, action, x);
    case Continuing(_, _) => ReleaseIsSafe(writes, s, w, x);
    case Expired =>
  }

  lemma HandlingIsSafe<C(!new)>(a: Actor, writes: Rule<C>, s: World<C>, action: Action<C>, x: Worker<C>)
    requires WritesStatus(writes) && Safe(writes, s) && action.w in s.workers && x == s.workers[action.w] && x.Handling?
    ensures Safe(writes, Resume(a, writes, s, action, x))
  {
    assert Holds(s.log, action.w, x);
    if action.CommitSuccess? {
      UpdateIsSafe(writes, s, action.w, x.base, x.ver, Succeed(x.event, action.attempts, action.dones), None);
    } else if action.FlushFailure? {
      FlushIsSafe(writes, s, action.w, x, action.attempts, BeforeFlush(a, x.base, x.event, action.attempts));
    }
  }

  lemma FailingIsSafe<C(!new)>(a: Actor, writes: Rule<C>, s: World<C>, action: Action<C>, x: Worker<C>)
    requires WritesStatus(writes) && Safe(writes, s) && action.w in s.workers && x == s.workers[action.w] && x.Failing?
    ensures Safe(writes, Resume(a, writes, s, action, x))
  {
    assert Holds(s.log, action.w, x);
    if action.StartUnwind? {
      InterruptIsSafe(writes, s, action.w, x, Step(x.event, x.attempts));
    } else if action.CommitFailure? && !Requested(x.attempts) {
      UpdateIsSafe(writes, s, action.w, x.base, x.ver, Fail(x.event, x.attempts, []), None);
    }
  }

  lemma FlushIsSafe<C(!new)>(writes: Rule<C>, s: World<C>, w: nat, x: Worker<C>, attempts: seq<Attempt<C>>, now: Option<Local<C>>)
    requires WritesStatus(writes) && Safe(writes, s) && w in s.workers && x == s.workers[w] && x.Handling?
    ensures Safe(writes, Flush(writes, s, w, x.base, x.ver, x.event, attempts, now))
  {
    assert Holds(s.log, w, x) && Attentive(s, x);
    if now.None? {
      DropIsSafe(writes, s, w);
    } else if now.value.comps == [] {
      FlushedIsSafe(writes, s, w, x, attempts);
    } else {
      UpdateIsSafe(writes, s, w, x.base, x.ver, Append(x.event, attempts), Some(Failing(x.base, x.ver + 1, x.event, attempts)));
    }
  }

  /** With nothing to flush the worker goes on without an update. */
  lemma FlushedIsSafe<C(!new)>(writes: Rule<C>, s: World<C>, w: nat, x: Worker<C>, attempts: seq<Attempt<C>>)
    requires Safe(writes, s) && w in s.workers && x == s.workers[w] && x.Handling?
    ensures Safe(writes, Continue(s, w, Failing(x.base, x.ver, x.event, attempts)))
  {
    var after := Continue(s, w, Failing(x.base, x.ver, x.event, attempts));
    assert Holds(s.log, w, x) && Attentive(s, x);
    forall v | v in after.workers ensures Attentive(after, after.workers[v]) {
      if v != w { assert Attentive(s, s.workers[v]); }
    }
  }

  lemma InterruptIsSafe<C(!new)>(writes: Rule<C>, s: World<C>, w: nat, x: Worker<C>, why: Why<C>)
    requires WritesStatus(writes) && Safe(writes, s) && !x.Expired? && Holds(s.log, w, x)
    ensures Safe(writes, Interrupt(writes, s, w, x.base, x.ver, why))
  {
    UpdateIsSafe(writes, s, w, x.base, x.ver, Compensate, Some(Unwinding(x.base, x.ver + 1, why, None, false, [])));
  }

  lemma ReleaseIsSafe<C(!new)>(writes: Rule<C>, s: World<C>, w: nat, x: Worker<C>)
    requires WritesStatus(writes) && Safe(writes, s) && x.Continuing? && Holds(s.log, w, x)
    ensures Safe(writes, Release(writes, s, w, x.base, x.ver))
  {
    var step := x.base.activeStep;
    UpdateIsSafe(writes, s, w, x.base, x.ver, Unlock, if step.Some? then Some(Called(x.base, x.ver + 1, step.value)) else None);
  }

  lemma SweepIsSafe<C(!new)>(writes: Rule<C>, s: World<C>, action: Action<C>, x: Worker<C>)
    requires WritesStatus(writes) && Safe(writes, s) && action.w in s.workers && x == s.workers[action.w] && x.Swept?
    ensures Safe(writes, SweepOne(writes, s, action, x.base, x.ver))
  {
    assert Holds(s.log, action.w, x);
    SweepKeeps(writes, s, action, x);
    match action
    case MarkFailed(_) => UpdateIsSafe(writes, s, action.w, x.base, x.ver, MarkFail, None);
    case StartRecovery(_) => InterruptIsSafe(writes, s, action.w, x, Sweep);
    case GetAgain(_) =>
      DropIsSafe(writes, s, action.w);
      if s.tx.Some? { SnapshotIsSafe(writes, s, action.w, Continuing(s.tx.value.row, s.tx.value.row.version)); }
    case _ => DropIsSafe(writes, s, action.w);
  }

  lemma SnapshotIsSafe<C(!new)>(writes: Rule<C>, s: World<C>, w: nat, x: Worker<C>)
    requires Safe(writes, s) && s.tx.Some?
    requires !x.Expired? && x.base == s.tx.value.row && x.ver == x.base.version
    requires !x.Failing? && !x.Unwinding? && (x.Handling? ==> x.base.status == InFlight)
    ensures Safe(writes, Continue(s, w, x))
  {
    SnapshotKeeps(writes, s, w, x);
    forall v | v in Continue(s, w, x).workers ensures Attentive(Continue(s, w, x), Continue(s, w, x).workers[v]) {
      if v != w { assert Attentive(s, s.workers[v]); }
    }
  }

  lemma DropIsSafe<C(!new)>(writes: Rule<C>, s: World<C>, w: nat)
    requires Safe(writes, s)
    ensures Safe(writes, Drop(s, w)) && Safe(writes, Continue(s, w, Expired))
  {
    forall v | v in Drop(s, w).workers ensures Attentive(Drop(s, w), s.workers[v]) { assert Attentive(s, s.workers[v]); }
    forall v | v in s.workers && v != w ensures Attentive(Continue(s, w, Expired), s.workers[v]) {
      assert Attentive(s, s.workers[v]);
    }
  }

  lemma OpenIsSafe<C(!new)>(writes: Rule<C>, s: World<C>, action: Action<C>, matched: bool)
    requires Safe(writes, s)
    ensures Safe(writes, Open(s, action, matched))
  {
    DropIsSafe(writes, s, action.w);
    if s.tx.Some? && Open(s, action, matched) != Drop(s, action.w) && !Open(s, action, matched).workers[action.w].Expired? {
      SnapshotIsSafe(writes, s, action.w, Open(s, action, matched).workers[action.w]);
    }
  }

  lemma PerformIsSafe<C(!new)>(a: Actor, writes: Rule<C>, s: World<C>, action: Action<C>)
    requires WritesStatus(writes) && Safe(writes, s)
    ensures Safe(writes, Perform(a, writes, s, action))
  {
    if action.GetTransaction? || action.QueryStuck? || action.QueryExpired? {
      OpenIsSafe(writes, s, action, action.GetTransaction? && s.tx.Some? && Matched(a, s.tx.value.row.state, action.event));
    } else if action.w in s.workers {
      ResumeIsSafe(a, writes, s, action, s.workers[action.w]);
    }
  }

  lemma {:induction false} RunIsSafe<C(!new)>(a: Actor, writes: Rule<C>, s: World<C>, actions: seq<Action<C>>)
    requires WritesStatus(writes) && Safe(writes, s)
    ensures Safe(writes, Protocol.Run(a, writes, s, actions))
    decreases |actions|
  {
    if actions != [] {
      PerformIsSafe(a, writes, s, actions[0]);
      RunIsSafe(a, writes, Protocol.Perform(a, writes, s, actions[0]), actions[1..]);
    }
  }

  /** Main result: whatever calls, sweeps and crashes are interleaved, a record that says COMPENSATED
      has no entry left to compensate. */
  lemma CompensatedMeansUnwound<C(!new)>(a: Actor, first: Row<C>, actions: seq<Action<C>>)
    ensures var s := Protocol.Run(a, Writes(a), Started(first), actions);
      s.tx.Some? && s.tx.value.row.status == Completion.Compensated ==> AllDone(s.tx.value.stack)
  {
    forall base: Row<C>, act ensures StatusFits(act, Writes(a)(base, act)) { RuleWritesStatus(a, base, act); }
    RunIsSafe(a, Writes(a), Started(first), actions);
  }
}
