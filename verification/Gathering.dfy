/** What a failed call has stored by the time it ends: the compensations of its successful attempts,
    once, and nothing else (runtime/actor.ts, the failure branch). */
module Gathering {
  import opened Records
  import opened Stores
  import opened Calls
  import opened Protocol

  /** The compensations that a failed call stores. */
  function Stored<C>(writes: Rule<C>, base: Row<C>, event: string, attempts: seq<Attempt<C>>): seq<Comp<C>> {
    var change := writes(base, Append(event, attempts));
    if change.Some? then change.value.comps else []
  }

  /** Begin, COMPENSATING and unlocking store no compensation. */
  ghost predicate Bare<C>(act: Act<C>, change: Option<Change<C>>) {
    (act.Begin? || act.Compensate? || act.Unlock?) && change.Some? ==> change.value.comps == []
  }

  ghost predicate BareRule<C(!new)>(writes: Rule<C>) {
    forall base, act :: Bare(act, writes(base, act))
  }

  /** What a worker has stored since its snapshot. */
  ghost function Since<C>(writes: Rule<C>, x: Worker<C>): seq<Comp<C>>
    requires !x.Expired?
  {
    if x.Failing? then Stored(writes, x.base, x.event, x.attempts)
    else if x.Unwinding? && x.why.Step? then Stored(writes, x.base, x.why.event, x.why.attempts)
    else []
  }

  ghost predicate Gathered<C>(writes: Rule<C>, log: seq<Commit<C>>, x: Worker<C>) {
    x.Expired? || (
      && 1 <= x.base.version <= x.ver <= |log|
      && Appended(writes, log, x.ver) == Appended(writes, log, x.base.version) + Since(writes, x))
  }

  ghost predicate GatheredAt<C>(writes: Rule<C>, log: seq<Commit<C>>, k: nat)
    requires 0 < k < |log|
  {
    var c := log[k];
    && 1 <= c.base <= k
    && (c.act.Fail? ==> Appended(writes, log, k) == Appended(writes, log, c.base) + Stored(writes, log[c.base - 1].row, c.act.event, c.act.attempts))
    && (c.act.Recover? ==> Appended(writes, log, k) == Appended(writes, log, c.base))
  }

  ghost predicate AllGathered<C>(writes: Rule<C>, s: World<C>) {
    && Consistent(writes, s)
    && (forall w :: w in s.workers ==> Gathered(writes, s.log, s.workers[w]))
    && (forall k :: 0 < k < |s.log| ==> GatheredAt(writes, s.log, k))
  }

  /** The updates a worker makes, by its position. */
  ghost predicate Next<C>(x: Worker<C>, act: Act<C>, next: Option<Worker<C>>) {
    && !x.Expired?
    && (next.Some? ==> !next.value.Expired? && next.value.base == x.base && next.value.ver == x.ver + 1)
    && match act
       case Append(event, attempts) => x.Handling? && next.Some? && next.value.Failing? && next.value.event == event && next.value.attempts == attempts
       case Compensate => next.Some? && next.value.Unwinding? &&
         (if x.Failing? then next.value.why == Why.Step(x.event, x.attempts) else x.Swept? && next.value.why.Sweep?)
       case Begin(_) => x.Called? && next.Some? && next.value.Handling?
       case Unlock => x.Continuing? && (next.Some? ==> next.value.Called?)
       case Fail(event, attempts, _) =>
         next.None? && if x.Failing? then x.event == event && x.attempts == attempts
                       else x.Unwinding? && x.why == Why.Step(event, attempts)
       case Recover(_) => next.None? && x.Unwinding? && x.why.Sweep?
       case _ => next.None?
  }

  lemma GatheredStays<C>(writes: Rule<C>, log: seq<Commit<C>>, c: Commit<C>, x: Worker<C>)
    requires Gathered(writes, log, x)
    ensures Gathered(writes, log + [c], x)
  {
    if !x.Expired? {
      AppendedGrows(writes, log, c, x.ver);
      AppendedGrows(writes, log, c, x.base.version);
    }
  }

  lemma GatheredAtStays<C>(writes: Rule<C>, log: seq<Commit<C>>, c: Commit<C>, k: nat)
    requires 0 < k < |log| && GatheredAt(writes, log, k)
    ensures GatheredAt(writes, log + [c], k)
  {
    AppendedGrows(writes, log, c, k);
    AppendedGrows(writes, log, c, log[k].base);
  }

  /** The commit of a worker that has gathered what it should. */
  lemma CommitIsGathered<C>(writes: Rule<C>, log: seq<Commit<C>>, c: Commit<C>, x: Worker<C>, next: Option<Worker<C>>)
    requires Gathered(writes, log, x) && Next(x, c.act, next) && |log| > 0
    requires x.ver == |log| && c.base == x.base.version && log[x.base.version - 1].row == x.base
    ensures GatheredAt(writes, log + [c], |log|)
  {
    AppendedGrows(writes, log, c, |log|);
    AppendedGrows(writes, log, c, x.base.version);
    assert (log + [c])[x.base.version - 1] == log[x.base.version - 1] && (log + [c])[|log|] == c;
  }

  lemma Sum<T>(whole: seq<T>, base: seq<T>, since: seq<T>, more: seq<T>)
    requires whole == base + since
    ensures whole + more == base + (since + more)
  {}

  /** The worker after its commit. */
  lemma NextIsGathered<C>(writes: Rule<C>, log: seq<Commit<C>>, c: Commit<C>, x: Worker<C>, y: Worker<C>, change: Change<C>)
    requires Gathered(writes, log, x) && Next(x, c.act, Some(y)) && |log| > 0
    requires x.ver == |log| && c.base == x.base.version && log[x.base.version - 1].row == x.base
    requires writes(x.base, c.act) == Some(change) && Since(writes, y) == Since(writes, x) + change.comps
    ensures Gathered(writes, log + [c], y)
  {
    var base := Appended(writes, log, x.base.version);
    AppendedByNew(writes, log, c, change);
    AppendedGrows(writes, log, c, x.base.version);
    Sum(Appended(writes, log, |log|), base, Since(writes, x), change.comps);
  }

  lemma SinceGrows<C>(writes: Rule<C>, x: Worker<C>, act: Act<C>, y: Worker<C>, change: Change<C>)
    requires Next(x, act, Some(y)) && writes(x.base, act) == Some(change) && Bare(act, Some(change))
    ensures Since(writes, y) == Since(writes, x) + change.comps
  {}

  lemma LogGathers<C>(writes: Rule<C>, log: seq<Commit<C>>, c: Commit<C>)
    requires |log| > 0 && (forall k :: 0 < k < |log| ==> GatheredAt(writes, log, k)) && GatheredAt(writes, log + [c], |log|)
    ensures forall k :: 0 < k < |log + [c]| ==> GatheredAt(writes, log + [c], k)
  {
    forall k | 0 < k < |log + [c]| ensures GatheredAt(writes, log + [c], k) {
      if k < |log| { GatheredAtStays(writes, log, c, k); }
    }
  }

  lemma UpdateGathers<C(!new)>(writes: Rule<C>, s: World<C>, w: nat, act: Act<C>, next: Option<Worker<C>>)
    requires BareRule(writes) && AllGathered(writes, s) && w in s.workers && Next(s.workers[w], act, next)
    requires Consistent(writes, Update(writes, s, w, s.workers[w].base, s.workers[w].ver, act, next))
    ensures AllGathered(writes, Update(writes, s, w, s.workers[w].base, s.workers[w].ver, act, next))
  {
    var x := s.workers[w];
    var after := Update(writes, s, w, x.base, x.ver, act, next);
    assert Holds(s.log, w, x) && Gathered(writes, s.log, x);
    if after.log != s.log {
      var c := after.log[|s.log|];
      assert after.log == s.log + [c];
      CommitIsGathered(writes, s.log, c, x, next);
      LogGathers(writes, s.log, c);
      forall v | v in after.workers ensures Gathered(writes, after.log, after.workers[v]) {
        if v == w {
          assert Bare(act, writes(x.base, act));
          SinceGrows(writes, x, act, next.value, writes(x.base, act).value);
          NextIsGathered(writes, s.log, c, x, next.value, writes(x.base, act).value);
        } else {
          GatheredStays(writes, s.log, c, s.workers[v]);
        }
      }
    }
  }

  // ---- Every step of the protocol ----

  /** The stored compensations are those that the match loop collected. */
  ghost predicate StoresCollected<C>(a: Actor, writes: Rule<C>, base: Row<C>, event: string, attempts: seq<Attempt<C>>) {
    BeforeFlush(a, base, event, attempts).Some? ==>
      Stored(writes, base, event, attempts) == BeforeFlush(a, base, event, attempts).value.comps
  }

  ghost predicate CollectingRule<C(!new)>(a: Actor, writes: Rule<C>) {
    BareRule(writes) && forall base, event, attempts :: StoresCollected(a, writes, base, event, attempts)
  }

  lemma ContinueGathers<C>(writes: Rule<C>, s: World<C>, w: nat, y: Worker<C>)
    requires AllGathered(writes, s) && Gathered(writes, s.log, y) && Consistent(writes, Continue(s, w, y))
    ensures AllGathered(writes, Continue(s, w, y))
  {}

  lemma DropGathers<C>(writes: Rule<C>, s: World<C>, w: nat)
    requires AllGathered(writes, s)
    ensures AllGathered(writes, Drop(s, w)) && AllGathered(writes, Drop(s, w).(tx := None))
  {}

  lemma UnwindGathers<C(!new)>(registered: set<string>, writes: Rule<C>, s: World<C>, action: Action<C>, x: Worker<C>)
    requires BareRule(writes) && AllGathered(writes, s) && action.w in s.workers && x == s.workers[action.w] && x.Unwinding?
    ensures AllGathered(writes, Unwind(registered, writes, s, action, x.base, x.ver, x.why, x.todo, x.called, x.results))
  {
    UnwindKeeps(registered, writes, s, action, x);
    assert Gathered(writes, s.log, x);
    if x.todo == Some([]) {
      if action.CommitFailure? {
        UpdateGathers(writes, s, action.w, if x.why.Sweep? then Recover(x.results) else Fail(x.why.event, x.why.attempts, x.results), None);
      }
    } else {
      UnwindStepGathers(registered, writes, s, action, x);
    }
  }

  lemma UnwindStepGathers<C(!new)>(registered: set<string>, writes: Rule<C>, s: World<C>, action: Action<C>, x: Worker<C>)
    requires AllGathered(writes, s) && action.w in s.workers && x == s.workers[action.w] && x.Unwinding? && x.todo != Some([])
    requires Consistent(writes, Unwind(registered, writes, s, action, x.base, x.ver, x.why, x.todo, x.called, x.results))
    ensures AllGathered(writes, Unwind(registered, writes, s, action, x.base, x.ver, x.why, x.todo, x.called, x.results))
  {
    var after := Unwind(registered, writes, s, action, x.base, x.ver, x.why, x.todo, x.called, x.results);
    if after != s {
      assert Gathered(writes, s.log, x);
      assert after.log == s.log && after.workers == s.workers[action.w := after.workers[action.w]];
      assert Gathered(writes, s.log, after.workers[action.w]);
    }
  }

  lemma SweepGathers<C(!new)>(writes: Rule<C>, s: World<C>, action: Action<C>, x: Worker<C>)
    requires BareRule(writes) && AllGathered(writes, s) && action.w in s.workers && x == s.workers[action.w] && x.Swept?
    ensures AllGathered(writes, SweepOne(writes, s, action, x.base, x.ver))
  {
    SweepKeeps(writes, s, action, x);
    DropGathers(writes, s, action.w);
    match action
    case MarkFailed(w) => UpdateGathers(writes, s, w, MarkFail, None);
    case StartRecovery(w) => UpdateGathers(writes, s, w, Compensate, Some(Unwinding(x.base, x.ver + 1, Sweep, None, false, [])));
    case GetAgain(w) =>
      if s.tx.Some? { ContinueGathers(writes, s, w, Continuing(s.tx.value.row, s.tx.value.row.version)); }
    case _ =>
  }

  lemma HandlingGathers<C(!new)>(a: Actor, writes: Rule<C>, s: World<C>, action: Action<C>, x: Worker<C>)
    requires CollectingRule(a, writes) && AllGathered(writes, s) && action.w in s.workers && x == s.workers[action.w] && x.Handling?
    ensures AllGathered(writes, Resume(a, writes, s, action, x))
  {
    ResumeKeeps(a, writes, s, action, x);
    DropGathers(writes, s, action.w);
    assert Gathered(writes, s.log, x);
    if action.CommitSuccess? {
      UpdateGathers(writes, s, action.w, Succeed(x.event, action.attempts, action.dones), None);
    } else if action.FlushFailure? {
      assert StoresCollected(a, writes, x.base, x.event, action.attempts);
      var now := BeforeFlush(a, x.base, x.event, action.attempts);
      if now.Some? && now.value.comps == [] {
        ContinueGathers(writes, s, action.w, Failing(x.base, x.ver, x.event, action.attempts));
      } else if now.Some? {
        UpdateGathers(writes, s, action.w, Append(x.event, action.attempts), Some(Failing(x.base, x.ver + 1, x.event, action.attempts)));
      }
    }
  }

  lemma FailingGathers<C(!new)>(a: Actor, writes: Rule<C>, s: World<C>, action: Action<C>, x: Worker<C>)
    requires BareRule(writes) && AllGathered(writes, s) && action.w in s.workers && x == s.workers[action.w] && x.Failing?
    ensures AllGathered(writes, Resume(a, writes, s, action, x))
  {
    ResumeKeeps(a, writes, s, action, x);
    var after := Resume(a, writes, s, action, x);
    if action.StartUnwind? && after != s {
      UpdateGathers(writes, s, action.w, Compensate, Some(Unwinding(x.base, x.ver + 1, Why.Step(x.event, x.attempts), None, false, [])));
    } else if after != s {
      UpdateGathers(writes, s, action.w, Fail(x.event, x.attempts, []), None);
    }
  }

  lemma CalledGathers<C(!new)>(writes: Rule<C>, s: World<C>, w: nat, x: Worker<C>)
    requires BareRule(writes) && AllGathered(writes, s) && w in s.workers && x == s.workers[w] && x.Called?
    ensures AllGathered(writes, Mark(writes, s, w, x.base, x.ver, x.event))
  {
    assert Holds(s.log, w, x);
    MarkKeeps(writes, s, w, x, x.event);
    UpdateGathers(writes, s, w, Begin(x.event), Some(Handling(x.base, x.ver + 1, x.event)));
  }

  lemma ContinuingGathers<C(!new)>(writes: Rule<C>, s: World<C>, w: nat, x: Worker<C>)
    requires BareRule(writes) && AllGathered(writes, s) && w in s.workers && x == s.workers[w] && x.Continuing?
    ensures AllGathered(writes, Release(writes, s, w, x.base, x.ver))
  {
    assert Holds(s.log, w, x);
    ReleaseKeeps(writes, s, w, x);
    UpdateGathers(writes, s, w, Unlock,
      if x.base.activeStep.Some? then Some(Called(x.base, x.ver + 1, x.base.activeStep.value)) else None);
  }

  lemma ResumeGathers<C(!new)>(a: Actor, writes: Rule<C>, s: World<C>, action: Action<C>, x: Worker<C>)
    requires CollectingRule(a, writes) && AllGathered(writes, s) && action.w in s.workers && x == s.workers[action.w]
    ensures AllGathered(writes, Resume(a, writes, s, action, x))
  {
    match x
    case Called(_, _, _) => CalledGathers(writes, s, action.w, x);
    case Handling(_, _, _) => HandlingGathers(a, writes, s, action, x);
    case Failing(_, _, _, _) => FailingGathers(a, writes, s, action, x);
    case Unwinding(_, _, _, _, _, _) => UnwindGathers(a.registered, writes, s, action, x);
    case Swept(_, _) => SweepGathers(writes, s, action, x);
    case Continuing(_, _) => ContinuingGathers(writes, s, action.w, x);
    case Expired => DropGathers(writes, s, action.w);
  }

  lemma OpenGathers<C>(writes: Rule<C>, s: World<C>, action: Action<C>, matched: bool)
    requires AllGathered(writes, s)
    ensures AllGathered(writes, Open(s, action, matched))
  {
    OpenKeeps(writes, s, action, matched);
    DropGathers(writes, s, action.w);
    var after := Open(s, action, matched);
    if after != Drop(s, action.w) { ContinueGathers(writes, s, action.w, after.workers[action.w]); }
  }

  lemma PerformGathers<C(!new)>(a: Actor, writes: Rule<C>, s: World<C>, action: Action<C>)
    requires CollectingRule(a, writes) && AllGathered(writes, s)
    ensures AllGathered(writes, Perform(a, writes, s, action))
  {
    if action.GetTransaction? || action.QueryStuck? || action.QueryExpired? {
      OpenGathers(writes, s, action, action.GetTransaction? && s.tx.Some? && Matched(a, s.tx.value.row.state, action.event));
    } else if action.w in s.workers {
      ResumeGathers(a, writes, s, action, s.workers[action.w]);
    }
  }

  lemma {:induction false} RunGathers<C(!new)>(a: Actor, writes: Rule<C>, s: World<C>, actions: seq<Action<C>>)
    requires CollectingRule(a, writes) && AllGathered(writes, s)
    ensures AllGathered(writes, Run(a, writes, s, actions))
    decreases |actions|
  {
    if actions != [] {
      PerformGathers(a, writes, s, actions[0]);
      RunGathers(a, writes, Perform(a, writes, s, actions[0]), actions[1..]);
    }
  }

  lemma RuleIsBare<C>(a: Actor, base: Row<C>, act: Act<C>)
    ensures Bare(act, WhatItWrites(a, base, act))
  {}

  lemma RuleStores<C>(a: Actor, base: Row<C>, event: string, attempts: seq<Attempt<C>>)
    ensures StoresCollected(a, Writes(a), base, event, attempts)
  {}

  /** Main result: in every run, a call that ends in failure has stored the compensations of its
      successful attempts exactly once, and a recovery none. */
  lemma EveryFailureGathered<C(!new)>(a: Actor, first: Row<C>, actions: seq<Action<C>>)
    ensures var log := Run(a, Writes(a), Started(first), actions).log;
      forall k :: 0 < k < |log| ==> GatheredAt(Writes(a), log, k)
  {
    forall base: Row<C>, act ensures Bare(act, Writes(a)(base, act)) { RuleIsBare(a, base, act); }
    forall base: Row<C>, event, attempts ensures StoresCollected(a, Writes(a), base, event, attempts) {
      RuleStores(a, base, event, attempts);
    }
    RunGathers(a, Writes(a), Started(first), actions);
  }
}
