/** The status in which each update of a run finds the record (runtime/actor.ts,
    executeTransitionOnSnapshot and executeRecoverySweep). */
module Statuses {
  import opened Records
  import opened Completion
  import opened Stores
  import opened Calls
  import opened Protocol

  /** A call is marked IN_FLIGHT before its work is committed, and COMPENSATING before its unwinding is;
      a sweep settles only what is in one of the two. CONTINUE reads the record again, whatever it is. */
  predicate Follows<C>(found: Status, act: Act<C>) {
    match act
    case Begin(_) => found != InFlight
    case Append(_, _) => found == InFlight
    case Succeed(_, _, _) => found == InFlight
    case Fail(_, attempts, _) =>
      attempts != [] && attempts[|attempts| - 1].Failed? && found == if attempts[|attempts| - 1].compensate then Compensating else InFlight
    case Compensate => found == InFlight || found == Compensating
    case Recover(_) => found == Compensating
    case MarkFail => found == InFlight || found == Compensating
    case _ => true
  }

  /** What the record of its version says about a worker. */
  predicate Stands<C>(found: Status, x: Worker<C>) {
    match x
    case Called(_, _, _) => found != InFlight
    case Handling(_, _, _) => found == InFlight
    case Failing(_, _, _, _) => found == InFlight
    case Unwinding(_, _, why, _, _, _) => found == Compensating && (why.Step? ==> Interrupted(why.attempts))
    case Swept(_, _) => found == InFlight || found == Compensating
    case _ => true
  }

  predicate Interrupted<C>(attempts: seq<Attempt<C>>) {
    attempts != [] && attempts[|attempts| - 1].Failed? && attempts[|attempts| - 1].compensate
  }

  ghost predicate StandsIn<C>(log: seq<Commit<C>>, x: Worker<C>) {
    x.Expired? || (1 <= x.ver <= |log| && Stands(log[x.ver - 1].row.status, x))
  }

  ghost predicate FollowsAt<C>(log: seq<Commit<C>>, k: nat)
    requires 0 < k < |log|
  {
    Follows(log[k - 1].row.status, log[k].act)
  }

  ghost predicate Orderly<C>(s: World<C>) {
    && |s.log| > 0 && (s.tx.Some? ==> s.tx.value.row == s.log[|s.log| - 1].row && s.tx.value.row.version == |s.log|)
    && (forall w :: w in s.workers ==> StandsIn(s.log, s.workers[w]))
    && (forall k :: 0 < k < |s.log| ==> FollowsAt(s.log, k))
  }

  lemma UpdateIsOrderly<C>(writes: Rule<C>, s: World<C>, w: nat, base: Row<C>, ver: nat, act: Act<C>, next: Option<Worker<C>>)
    requires Orderly(s) && (s.tx.Some? && s.tx.value.row.version == ver ==> Follows(s.tx.value.row.status, act))
    requires next.Some? && writes(base, act).Some? && s.tx.Some? && s.tx.value.row.version == ver ==>
      !next.value.Expired? && next.value.ver == ver + 1
      && Stands(Or(writes(base, act).value.patch.status, s.tx.value.row.status), next.value)
    ensures Orderly(Update(writes, s, w, base, ver, act, next))
  {
    var t := Update(writes, s, w, base, ver, act, next);
    if |t.log| > |s.log| {
      forall x | x in t.workers ensures StandsIn(t.log, t.workers[x]) {
        if x != w || next.None? { assert StandsIn(s.log, s.workers[x]); }
      }
      forall k | 0 < k < |t.log| ensures FollowsAt(t.log, k) {
        if k < |s.log| { assert FollowsAt(s.log, k); }
      }
    }
  }

  /** What an update does to the status. */
  ghost predicate Marks<C(!new)>(writes: Rule<C>) {
    forall base, act {:trigger writes(base, act)} :: writes(base, act).Some? ==>
      var status := writes(base, act).value.patch.status;
      && (act.Begin? ==> status == Some(InFlight)) && (act.Append? ==> status == None)
      && (act.Compensate? ==> status == Some(Compensating)) && (act.Unlock? ==> status == Some(Idle))
      && (act.Fail? ==> act.attempts != [] && act.attempts[|act.attempts| - 1].Failed?)
  }

  lemma ReleaseIsOrderly<C(!new)>(writes: Rule<C>, s: World<C>, w: nat, x: Worker<C>)
    requires Marks(writes) && Orderly(s) && x.Continuing?
    ensures Orderly(Release(writes, s, w, x.base, x.ver))
  {
    var step := x.base.activeStep;
    UpdateIsOrderly(writes, s, w, x.base, x.ver, Unlock, if step.Some? then Some(Called(x.base, x.ver + 1, step.value)) else None);
  }

  /** The status that a worker's version had is the current one, if its update can be made. */
  lemma StandsNow<C>(s: World<C>, w: nat)
    requires Orderly(s) && w in s.workers && !s.workers[w].Expired? && s.tx.Some? && s.tx.value.row.version == s.workers[w].ver
    ensures Stands(s.tx.value.row.status, s.workers[w])
  {
    assert StandsIn(s.log, s.workers[w]);
  }

  lemma KeepIsOrderly<C>(s: World<C>, w: nat, next: Worker<C>)
    requires Orderly(s) && StandsIn(s.log, next)
    ensures Orderly(Continue(s, w, next))
  {}

  lemma DropIsOrderly<C>(s: World<C>, w: nat)
    requires Orderly(s)
    ensures Orderly(Drop(s, w))
  {}

  lemma CallIsOrderly<C(!new)>(a: Actor, writes: Rule<C>, s: World<C>, action: Action<C>, x: Worker<C>)
    requires Marks(writes) && Orderly(s) && action.w in s.workers && x == s.workers[action.w]
    requires x.Called? || x.Handling?
    ensures Orderly(Resume(a, writes, s, action, x))
  {
    var w := action.w;
    assert StandsIn(s.log, x);
    if s.tx.Some? && s.tx.value.row.version == x.ver { StandsNow(s, w); }
    match x
    case Called(base, ver, event) => UpdateIsOrderly(writes, s, w, base, ver, Begin(event), Some(Handling(base, ver + 1, event)));
    case Handling(base, ver, event) =>
      if action.CommitSuccess? {
        UpdateIsOrderly(writes, s, w, base, ver, Succeed(event, action.attempts, action.dones), None);
      } else if action.FlushFailure? {
        KeepIsOrderly(s, w, Failing(base, ver, event, action.attempts));
        DropIsOrderly(s, w);
        UpdateIsOrderly(writes, s, w, base, ver, Append(event, action.attempts), Some(Failing(base, ver + 1, event, action.attempts)));
      }
  }

  lemma FailingIsOrderly<C(!new)>(a: Actor, writes: Rule<C>, s: World<C>, action: Action<C>, x: Worker<C>)
    requires Marks(writes) && Orderly(s) && action.w in s.workers && x == s.workers[action.w] && x.Failing?
    ensures Orderly(Resume(a, writes, s, action, x))
  {
    var w := action.w;
    assert StandsIn(s.log, x);
    if s.tx.Some? && s.tx.value.row.version == x.ver { StandsNow(s, w); }
    if x.attempts != [] && x.attempts[|x.attempts| - 1].Failed? {
      if x.attempts[|x.attempts| - 1].compensate {
        UpdateIsOrderly(writes, s, w, x.base, x.ver, Compensate, Some(Unwinding(x.base, x.ver + 1, Why<C>.Step(x.event, x.attempts), None, false, [])));
      } else {
        UpdateIsOrderly(writes, s, w, x.base, x.ver, Fail(x.event, x.attempts, []), None);
      }
    }
  }

  lemma OpenIsOrderly<C>(s: World<C>, action: Action<C>, matched: bool)
    requires Orderly(s)
    ensures Orderly(Open(s, action, matched))
  {
    DropIsOrderly(s, action.w);
    if s.tx.Some? {
      var row := s.tx.value.row;
      match action
      case GetTransaction(_, event) =>
        KeepIsOrderly(s, action.w, if row.status == InFlight then Handling(row, row.version, event) else Called(row, row.version, event));
      case QueryStuck(_) =>
        if row.status in {InFlight, Compensating} { KeepIsOrderly(s, action.w, Swept(row, row.version)); }
      case _ => KeepIsOrderly(s, action.w, Expired);
    }
  }

  lemma SweepIsOrderly<C(!new)>(writes: Rule<C>, s: World<C>, action: Action<C>, x: Worker<C>)
    requires Marks(writes) && Orderly(s) && action.w in s.workers && x == s.workers[action.w] && x.Swept?
    ensures Orderly(SweepOne(writes, s, action, x.base, x.ver))
  {
    var w := action.w;
    assert StandsIn(s.log, x);
    if s.tx.Some? && s.tx.value.row.version == x.ver { StandsNow(s, w); }
    match action
    case MarkFailed(_) => UpdateIsOrderly(writes, s, w, x.base, x.ver, MarkFail, None);
    case StartRecovery(_) =>
      UpdateIsOrderly(writes, s, w, x.base, x.ver, Compensate, Some(Unwinding(x.base, x.ver + 1, Sweep, None, false, [])));
    case _ =>
  }

  lemma MarkedIsOrderly<C>(s: World<C>, k: nat)
    requires Orderly(s)
    ensures Orderly(Marked(s, k))
  {}

  lemma UnwindIsOrderly<C(!new)>(registered: set<string>, writes: Rule<C>, s: World<C>, action: Action<C>, x: Worker<C>)
    requires Marks(writes) && Orderly(s) && action.w in s.workers && x == s.workers[action.w] && x.Unwinding?
    ensures Orderly(Unwind(registered, writes, s, action, x.base, x.ver, x.why, x.todo, x.called, x.results))
  {
    var w := action.w;
    assert StandsIn(s.log, x);
    if s.tx.Some? && s.tx.value.row.version == x.ver { StandsNow(s, w); }
    match x.todo
    case None => KeepIsOrderly(s, w, x.(todo := Some(if s.tx.None? then [] else Uncompensated(s.tx.value.stack)), called := false));
    case Some(entries) =>
      if |entries| == 0 {
        if action.CommitFailure? {
          UpdateIsOrderly(writes, s, w, x.base, x.ver,
                          if x.why.Sweep? then Recover(x.results) else Fail(x.why.event, x.why.attempts, x.results), None);
        }
      } else if action.CallNext? {
        KeepIsOrderly(s, w, x.(called := true, results := x.results + [action.result]));
      } else if action.MarkNext? {
        MarkedIsOrderly(s, entries[0].stepSeq);
        KeepIsOrderly(Marked(s, entries[0].stepSeq), w,
                      x.(todo := Some(entries[1..]), called := false, results := if x.called then x.results else x.results + [None]));
      }
  }

  lemma StepIsOrderly<C(!new)>(a: Actor, writes: Rule<C>, s: World<C>, action: Action<C>)
    requires Marks(writes) && Orderly(s)
    ensures Orderly(Perform(a, writes, s, action))
  {
    if action.GetTransaction? || action.QueryStuck? || action.QueryExpired? {
      OpenIsOrderly(s, action, action.GetTransaction? && s.tx.Some? && Matched(a, s.tx.value.row.state, action.event));
    } else if action.w in s.workers {
      var x := s.workers[action.w];
      match x
      case Unwinding(_, _, _, _, _, _) => UnwindIsOrderly(a.registered, writes, s, action, x);
      case Swept(_, _) => SweepIsOrderly(writes, s, action, x);
      case Continuing(_, _) => ReleaseIsOrderly(writes, s, action.w, x);
      case Expired =>
      case Failing(_, _, _, _) => FailingIsOrderly(a, writes, s, action, x);
      case _ => CallIsOrderly(a, writes, s, action, x);
    }
  }

  lemma {:induction false} RunIsOrderly<C(!new)>(a: Actor, writes: Rule<C>, s: World<C>, actions: seq<Action<C>>)
    requires Marks(writes) && Orderly(s)
    ensures Orderly(Run(a, writes, s, actions))
    decreases |actions|
  {
    if actions != [] {
      StepIsOrderly(a, writes, s, actions[0]);
      RunIsOrderly(a, writes, Perform(a, writes, s, actions[0]), actions[1..]);
    }
  }

  /** Main result: in every run, each update finds the record in the status that its place in the protocol
      asks for. */
  lemma EveryUpdateFollows<C(!new)>(a: Actor, first: Row<C>, actions: seq<Action<C>>)
    ensures var log := Run(a, Writes(a), Started(first), actions).log;
      |log| > 0 && forall k :: 0 < k < |log| ==> FollowsAt(log, k)
  {
    RunIsOrderly(a, Writes(a), Started(first), actions);
  }
}
