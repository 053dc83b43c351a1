/** Any number of transition calls, recovery sweeps and cleanups on one transaction, interleaved at
    their store operations (runtime/actor.ts). A worker that takes no further step has crashed. */
module Protocol {
  import opened Records
  import opened Machines
  import opened Matching
  import opened Completion
  import opened Stores
  import opened Calls

  /** A committed update: the record it left, who made it, and the version it was computed from. */
  datatype Commit<C> = Commit(row: Row<C>, worker: nat, base: nat, act: Act<C>)

  datatype Why<C> = Step(event: string, attempts: seq<Attempt<C>>) | Sweep

  /** A worker's snapshot is `base`; `ver` is the version its next update expects. */
  datatype Worker<C> =
    | Called(base: Row<C>, ver: nat, event: string)
    | Handling(base: Row<C>, ver: nat, event: string)
    | Failing(base: Row<C>, ver: nat, event: string, attempts: seq<Attempt<C>>)
    | Unwinding(base: Row<C>, ver: nat, why: Why<C>, todo: Option<seq<Stores.Entry<C>>>,
                called: bool, results: seq<Option<C>>)
    | Swept(base: Row<C>, ver: nat)
    | Continuing(base: Row<C>, ver: nat)
    | Expired

  datatype World<C> = World(tx: Option<Tx<C>>, log: seq<Commit<C>>, workers: map<nat, Worker<C>>)

  /** One store operation of worker `w`, with what its handlers returned before it. */
  datatype Action<C> =
    | GetTransaction(w: nat, event: string)
    | MarkInFlight(w: nat)
    | CommitSuccess(w: nat, attempts: seq<Attempt<C>>, dones: seq<Option<C>>)
    | FlushFailure(w: nat, attempts: seq<Attempt<C>>)
    | StartUnwind(w: nat)
    | ReadStack(w: nat)
    | CallNext(w: nat, result: Option<C>)
    | MarkNext(w: nat)
    | CommitFailure(w: nat)
    | QueryStuck(w: nat)
    | MarkFailed(w: nat)
    | StartRecovery(w: nat)
    | GetAgain(w: nat)
    | ReleaseLock(w: nat)
    | QueryExpired(w: nat)
    | Delete(w: nat)

  function Drop<C>(s: World<C>, w: nat): World<C> {
    s.(workers := s.workers - {w})
  }

  function Continue<C>(s: World<C>, w: nat, next: Worker<C>): World<C> {
    s.(workers := s.workers[w := next])
  }

  /** How updates are computed: shared by the statements below, which hold for any such rule. */
  type Rule<!C> = (Row<C>, Act<C>) -> Option<Change<C>>

  function Writes<C>(a: Actor): Rule<C> {
    (base, act) => WhatItWrites(a, base, act)
  }

  /** A version-checked update. On a stale version or a missing record the source throws, and the
      worker is gone. */
  function Update<C>(writes: Rule<C>, s: World<C>, w: nat, base: Row<C>, ver: nat, act: Act<C>, next: Option<Worker<C>>): World<C> {
    match writes(base, act)
    case None => Drop(s, w)
    case Some(change) =>
      if s.tx.None? || s.tx.value.row.version != ver then Drop(s, w)
      else
        var tx := UpdateTx(s.tx.value, change.patch, change.comps);
        World(Some(tx), s.log + [Commit(tx.row, w, base.version, act)],
              if next.Some? then s.workers[w := next.value] else s.workers - {w})
  }

  /** An action that does not fit the worker's position changes nothing. */
  function Perform<C>(a: Actor, writes: Rule<C>, s: World<C>, action: Action<C>): World<C> {
    if action.GetTransaction? || action.QueryStuck? || action.QueryExpired? then
      Open(s, action, action.GetTransaction? && s.tx.Some? && Matched(a, s.tx.value.row.state, action.event))
    else if action.w in s.workers then Resume(a, writes, s, action, s.workers[action.w])
    else s
  }

  predicate Matched(a: Actor, v: StateValue, event: string) {
    ResolveTransitions(a.m, v, event) != []
  }

  /** The reads that start a worker. */
  function Open<C>(s: World<C>, action: Action<C>, matched: bool): World<C> {
    var w := action.w;
    if s.tx.None? then Drop(s, w)
    else
      var row := s.tx.value.row;
      match action
      case GetTransaction(_, event) =>
        if !matched then Drop(s, w)
        else Continue(s, w, if row.status == InFlight then Handling(row, row.version, event) else Called(row, row.version, event))
      case QueryStuck(_) =>
        if row.status in {InFlight, Compensating} then Continue(s, w, Swept(row, row.version)) else Drop(s, w)
      case _ =>
        if row.status in {Completed, Completion.Failed, Compensated} then Continue(s, w, Expired) else Drop(s, w)
  }

  function Resume<C>(a: Actor, writes: Rule<C>, s: World<C>, action: Action<C>, x: Worker<C>): World<C> {
    match x
    case Called(base, ver, event) => if action.MarkInFlight? then Mark(writes, s, action.w, base, ver, event) else s
    case Handling(base, ver, event) =>
      if action.CommitSuccess? then
        Update(writes, s, action.w, base, ver, Succeed(event, action.attempts, action.dones), None)
      else if action.FlushFailure? then
        Flush(writes, s, action.w, base, ver, event, action.attempts, BeforeFlush(a, base, event, action.attempts))
      else s
    case Failing(base, ver, event, attempts) =>
      if attempts == [] || attempts[|attempts| - 1].Succeeded? then s
      else if action.StartUnwind? && attempts[|attempts| - 1].compensate then
        Interrupt(writes, s, action.w, base, ver, Step(event, attempts))
      else if action.CommitFailure? && !attempts[|attempts| - 1].compensate then
        Update(writes, s, action.w, base, ver, Fail(event, attempts, []), None)
      else s
    case Unwinding(base, ver, why, todo, called, results) =>
      Unwind(a.registered, writes, s, action, base, ver, why, todo, called, results)
    case Swept(base, ver) => SweepOne(writes, s, action, base, ver)
    case Continuing(base, ver) => if action.ReleaseLock? then Release(writes, s, action.w, base, ver) else s
    case Expired => if action.Delete? then Drop(s, action.w).(tx := None) else s
  }

  function Mark<C>(writes: Rule<C>, s: World<C>, w: nat, base: Row<C>, ver: nat, event: string): World<C> {
    Update(writes, s, w, base, ver, Begin(event), Some(Handling(base, ver + 1, event)))
  }

  function BeforeFlush<C>(a: Actor, base: Row<C>, event: string, attempts: seq<Attempt<C>>): Option<Local<C>> {
    if FailsLast(a, base, event, attempts) then UntilFailure(a, base, event, attempts) else None
  }

  /** The compensations collected so far are stored before anything else. */
  function Flush<C>(writes: Rule<C>, s: World<C>, w: nat, base: Row<C>, ver: nat, event: string,
                    attempts: seq<Attempt<C>>, now: Option<Local<C>>): World<C> {
    if now.None? then Drop(s, w)
    else if now.value.comps == [] then Continue(s, w, Failing(base, ver, event, attempts))
    else Update(writes, s, w, base, ver, Append(event, attempts), Some(Failing(base, ver + 1, event, attempts)))
  }

  function Interrupt<C>(writes: Rule<C>, s: World<C>, w: nat, base: Row<C>, ver: nat, why: Why<C>): World<C> {
    Update(writes, s, w, base, ver, Compensate, Some(Unwinding(base, ver + 1, why, None, false, [])))
  }

  /** Reading the stack, then for each entry the call of its handler, if it resolves, and the mark. */
  function Unwind<C>(registered: set<string>, writes: Rule<C>, s: World<C>, action: Action<C>, base: Row<C>, ver: nat,
                     why: Why<C>, todo: Option<seq<Stores.Entry<C>>>, called: bool, results: seq<Option<C>>): World<C> {
    var w := action.w;
    match todo
    case None =>
      if !action.ReadStack? then s
      else
        var stack := if s.tx.None? then [] else Uncompensated(s.tx.value.stack);
        Continue(s, w, Unwinding(base, ver, why, Some(stack), false, results))
    case Some(entries) =>
      if |entries| == 0 then
        if !action.CommitFailure? then s
        else Update(writes, s, w, base, ver, if why.Sweep? then Recover(results) else Fail(why.event, why.attempts, results), None)
      else
        var known := entries[0].item.comp.key in registered;
        if action.CallNext? && known && !called then
          Continue(s, w, Unwinding(base, ver, why, todo, true, results + [action.result]))
        else if action.MarkNext? && (called || !known) then
          Continue(Marked(s, entries[0].stepSeq), w,
                   Unwinding(base, ver, why, Some(entries[1..]), false, if called then results else results + [None]))
        else s
  }

  /** markCompensationExecuted, which checks no version. */
  function Marked<C>(s: World<C>, k: nat): World<C> {
    if s.tx.None? then s else s.(tx := Some(MarkTx(s.tx.value, k)))
  }

  /** The recovery modes of a sweep; STOP does nothing here. */
  function SweepOne<C>(writes: Rule<C>, s: World<C>, action: Action<C>, base: Row<C>, ver: nat): World<C> {
    var w := action.w;
    match action
    case MarkFailed(_) => Update(writes, s, w, base, ver, MarkFail, None)
    case StartRecovery(_) => Interrupt(writes, s, w, base, ver, Sweep)
    case GetAgain(_) =>
      if s.tx.None? then Drop(s, w) else Continue(s, w, Continuing(s.tx.value.row, s.tx.value.row.version))
    case Delete(_) => Drop(s, w).(tx := None)
    case _ => s
  }

  /** CONTINUE: the lock is released, and the interrupted step is called again on the same snapshot. */
  function Release<C>(writes: Rule<C>, s: World<C>, w: nat, base: Row<C>, ver: nat): World<C> {
    Update(writes, s, w, base, ver, Unlock,
      if base.activeStep.Some? then Some(Called(base, ver + 1, base.activeStep.value)) else None)
  }

  function Run<C>(a: Actor, writes: Rule<C>, s: World<C>, actions: seq<Action<C>>): World<C>
    decreases |actions|
  {
    if actions == [] then s else Run(a, writes, Perform(a, writes, s, actions[0]), actions[1..])
  }

  /** The transaction as startTransaction creates it, with no worker under way. */
  function Started<C>(first: Row<C>): World<C> {
    World(Some(Tx(first.(version := 1), [])), [Commit(first.(version := 1), 0, 0, Create)], map[])
  }

  // ---- The chain of commits ----

  /** Updates that leave the state and the context alone: the worker goes on from its snapshot. */
  predicate Preliminary<C>(act: Act<C>) {
    act.Begin? || act.Append? || act.Compensate? || act.Unlock?
  }

  /** Everything committed after version `base` up to version `ver` is worker w's own. */
  ghost predicate Own<C>(log: seq<Commit<C>>, w: nat, base: nat, ver: nat) {
    && 1 <= base <= ver <= |log|
    && forall j :: base <= j < ver ==> log[j].worker == w && log[j].base == base && Preliminary(log[j].act)
  }

  /** The commit at `k` patches the record right before it, with what its worker computed from the
      record that stood right before that worker's own run of updates. */
  ghost predicate Chained<C>(writes: Rule<C>, log: seq<Commit<C>>, k: nat)
    requires 0 < k < |log|
  {
    var c := log[k];
    && Own(log, c.worker, c.base, k)
    && (c.act.Unlock? ==> c.base == k)
    && var change := writes(log[c.base - 1].row, c.act);
       change.Some? && c.row == Patched(log[k - 1].row, change.value.patch)
  }

  ghost predicate Logged<C>(writes: Rule<C>, log: seq<Commit<C>>) {
    && |log| >= 1
    && (forall k :: 0 <= k < |log| ==> log[k].row.version == k + 1)
    && (forall k :: 0 < k < |log| ==> Chained(writes, log, k))
  }

  ghost predicate Holds<C>(log: seq<Commit<C>>, w: nat, x: Worker<C>) {
    || x.Expired?
    || (Own(log, w, x.base.version, x.ver) && log[x.base.version - 1].row == x.base
        && (x.Swept? || x.Continuing? ==> x.ver == x.base.version))
  }

  /** The items of a commit at k, in the order they were appended. */
  ghost function Appended<C>(writes: Rule<C>, log: seq<Commit<C>>, k: nat): seq<Comp<C>>
    requires k <= |log|
  {
    if k <= 1 || !(1 <= log[k - 1].base < k) then []
    else
      var change := writes(log[log[k - 1].base - 1].row, log[k - 1].act);
      Appended(writes, log, k - 1) + (if change.Some? then change.value.comps else [])
  }

  function CompsOf<C>(stack: seq<Item<C>>): seq<Comp<C>> {
    seq(|stack|, i requires 0 <= i < |stack| => stack[i].comp)
  }

  ghost predicate Recorded<C>(writes: Rule<C>, s: World<C>) {
    && Logged(writes, s.log)
    && (s.tx.Some? ==> s.tx.value.row == s.log[|s.log| - 1].row)
    && (s.tx.Some? ==> CompsOf(s.tx.value.stack) == Appended(writes, s.log, |s.log|))
  }

  ghost predicate Consistent<C>(writes: Rule<C>, s: World<C>) {
    Recorded(writes, s) && forall w :: w in s.workers ==> Holds(s.log, w, s.workers[w])
  }

  lemma OwnGrows<C>(log: seq<Commit<C>>, c: Commit<C>, w: nat, base: nat, ver: nat)
    requires Own(log, w, base, ver)
    ensures Own(log + [c], w, base, ver)
  {}

  lemma ChainGrows<C>(writes: Rule<C>, log: seq<Commit<C>>, c: Commit<C>, k: nat)
    requires 0 < k < |log| && Chained(writes, log, k)
    ensures Chained(writes, log + [c], k)
  {
    OwnGrows(log, c, log[k].worker, log[k].base, k);
  }

  lemma {:induction false} AppendedGrows<C>(writes: Rule<C>, log: seq<Commit<C>>, c: Commit<C>, k: nat)
    requires k <= |log|
    ensures Appended(writes, log + [c], k) == Appended(writes, log, k)
  {
    if k > 1 { AppendedGrows(writes, log, c, k - 1); }
  }

  lemma LogGrows<C>(writes: Rule<C>, log: seq<Commit<C>>, c: Commit<C>, change: Change<C>)
    requires Logged(writes, log) && Own(log, c.worker, c.base, |log|) && (c.act.Unlock? ==> c.base == |log|)
    requires writes(log[c.base - 1].row, c.act) == Some(change)
    requires c.row == Patched(log[|log| - 1].row, change.patch)
    ensures Logged(writes, log + [c])
    ensures Appended(writes, log + [c], |log| + 1) == Appended(writes, log, |log|) + change.comps
  {
    forall k | 0 < k < |log + [c]| ensures Chained(writes, log + [c], k) {
      if k < |log| { ChainGrows(writes, log, c, k); } else { NewIsChained(writes, log, c, change); }
    }
    AppendedByNew(writes, log, c, change);
  }

  lemma NewIsChained<C>(writes: Rule<C>, log: seq<Commit<C>>, c: Commit<C>, change: Change<C>)
    requires |log| > 0 && Own(log, c.worker, c.base, |log|) && (c.act.Unlock? ==> c.base == |log|)
    requires writes(log[c.base - 1].row, c.act) == Some(change)
    requires c.row == Patched(log[|log| - 1].row, change.patch)
    ensures Chained(writes, log + [c], |log|)
  {
    OwnGrows(log, c, c.worker, c.base, |log|);
  }

  lemma AppendedByNew<C>(writes: Rule<C>, log: seq<Commit<C>>, c: Commit<C>, change: Change<C>)
    requires |log| > 0 && 1 <= c.base <= |log| && writes(log[c.base - 1].row, c.act) == Some(change)
    ensures Appended(writes, log + [c], |log| + 1) == Appended(writes, log, |log|) + change.comps
  {
    AppendedGrows(writes, log, c, |log|);
    assert (log + [c])[|log|] == c && (log + [c])[c.base - 1] == log[c.base - 1];
  }

  lemma RecordGrows<C>(writes: Rule<C>, s: World<C>, w: nat, base: Row<C>, ver: nat, act: Act<C>)
    requires Recorded(writes, s) && Own(s.log, w, base.version, ver) && s.log[base.version - 1].row == base
    requires s.tx.Some? && s.tx.value.row.version == ver && writes(base, act).Some?
    requires act.Unlock? ==> ver == base.version
    ensures Recorded(writes, Update(writes, s, w, base, ver, act, None))
  {
    var change := writes(base, act).value;
    var after := Update(writes, s, w, base, ver, act, None);
    var c := Commit(after.tx.value.row, w, base.version, act);
    assert after.log == s.log + [c];
    LogGrows(writes, s.log, c, change);
    assert CompsOf(after.tx.value.stack) == CompsOf(s.tx.value.stack) + change.comps;
  }

  lemma HoldsGrows<C>(log: seq<Commit<C>>, c: Commit<C>, w: nat, x: Worker<C>)
    requires Holds(log, w, x)
    ensures Holds(log + [c], w, x)
  {
    if !x.Expired? { OwnGrows(log, c, w, x.base.version, x.ver); }
  }

  lemma HoldsNext<C>(log: seq<Commit<C>>, c: Commit<C>, base: Row<C>, x: Worker<C>)
    requires Own(log, c.worker, base.version, |log|) && log[base.version - 1].row == base
    requires c.base == base.version && Preliminary(c.act)
    requires !x.Expired? && !x.Swept? && !x.Continuing? && x.base == base && x.ver == |log| + 1
    ensures Holds(log + [c], c.worker, x)
  {}

  lemma UpdateKeeps<C>(writes: Rule<C>, s: World<C>, w: nat, base: Row<C>, ver: nat, act: Act<C>, next: Option<Worker<C>>)
    requires Consistent(writes, s) && Own(s.log, w, base.version, ver) && s.log[base.version - 1].row == base
    requires act.Unlock? ==> ver == base.version
    requires next.Some? ==>
      Preliminary(act) && !next.value.Swept? && !next.value.Continuing? && !next.value.Expired? && next.value.base == base && next.value.ver == ver + 1
    ensures Consistent(writes, Update(writes, s, w, base, ver, act, next))
  {
    var after := Update(writes, s, w, base, ver, act, next);
    if after.log != s.log {
      RecordGrows(writes, s, w, base, ver, act);
      assert |s.log| == ver;
      var c := after.log[|s.log|];
      assert after.log == s.log + [c];
      forall v | v in after.workers ensures Holds(after.log, v, after.workers[v]) {
        if v == w {
          HoldsNext(s.log, c, base, next.value);
        } else {
          assert v in s.workers;
          HoldsGrows(s.log, c, v, s.workers[v]);
        }
      }
    }
  }

  lemma MarkKeepsComps<C>(tx: Tx<C>, k: nat)
    ensures CompsOf(MarkTx(tx, k).stack) == CompsOf(tx.stack)
  {}

  lemma UnwindKeeps<C>(registered: set<string>, writes: Rule<C>, s: World<C>, action: Action<C>, x: Worker<C>)
    requires Consistent(writes, s) && action.w in s.workers && x == s.workers[action.w] && x.Unwinding?
    ensures Consistent(writes, Unwind(registered, writes, s, action, x.base, x.ver, x.why, x.todo, x.called, x.results))
  {
    assert Holds(s.log, action.w, x);
    if x.todo.Some? {
      if x.todo.value == [] {
        UpdateKeeps(writes, s, action.w, x.base, x.ver,
          if x.why.Sweep? then Recover(x.results) else Fail(x.why.event, x.why.attempts, x.results), None);
      } else if s.tx.Some? {
        MarkKeepsComps(s.tx.value, x.todo.value[0].stepSeq);
      }
    }
  }

  lemma SweepKeeps<C>(writes: Rule<C>, s: World<C>, action: Action<C>, x: Worker<C>)
    requires Consistent(writes, s) && action.w in s.workers && x == s.workers[action.w] && x.Swept?
    ensures Consistent(writes, SweepOne(writes, s, action, x.base, x.ver))
  {
    assert Holds(s.log, action.w, x);
    match action
    case MarkFailed(_) => UpdateKeeps(writes, s, action.w, x.base, x.ver, MarkFail, None);
    case StartRecovery(_) => InterruptKeeps(writes, s, action.w, x, Sweep);
    case GetAgain(_) => if s.tx.Some? {
      SnapshotKeeps(writes, s, action.w, Continuing(s.tx.value.row, s.tx.value.row.version));
    }
    case _ =>
  }

  lemma InterruptKeeps<C>(writes: Rule<C>, s: World<C>, w: nat, x: Worker<C>, why: Why<C>)
    requires Consistent(writes, s) && !x.Expired? && Holds(s.log, w, x)
    ensures Consistent(writes, Interrupt(writes, s, w, x.base, x.ver, why))
  {
    UpdateKeeps(writes, s, w, x.base, x.ver, Compensate, Some(Unwinding(x.base, x.ver + 1, why, None, false, [])));
  }

  lemma MarkKeeps<C>(writes: Rule<C>, s: World<C>, w: nat, x: Worker<C>, event: string)
    requires Consistent(writes, s) && !x.Expired? && Holds(s.log, w, x)
    ensures Consistent(writes, Mark(writes, s, w, x.base, x.ver, event))
  {
    UpdateKeeps(writes, s, w, x.base, x.ver, Begin(event), Some(Handling(x.base, x.ver + 1, event)));
  }

  lemma FlushKeeps<C>(writes: Rule<C>, s: World<C>, w: nat, x: Worker<C>, event: string, attempts: seq<Attempt<C>>, now: Option<Local<C>>)
    requires Consistent(writes, s) && !x.Expired? && Holds(s.log, w, x)
    ensures Consistent(writes, Flush(writes, s, w, x.base, x.ver, event, attempts, now))
  {
    UpdateKeeps(writes, s, w, x.base, x.ver, Append(event, attempts), Some(Failing(x.base, x.ver + 1, event, attempts)));
  }

  lemma ReleaseKeeps<C>(writes: Rule<C>, s: World<C>, w: nat, x: Worker<C>)
    requires Consistent(writes, s) && x.Continuing? && Holds(s.log, w, x)
    ensures Consistent(writes, Release(writes, s, w, x.base, x.ver))
  {
    var step := x.base.activeStep;
    UpdateKeeps(writes, s, w, x.base, x.ver, Unlock, if step.Some? then Some(Called(x.base, x.ver + 1, step.value)) else None);
  }

  lemma ResumeKeeps<C>(a: Actor, writes: Rule<C>, s: World<C>, action: Action<C>, x: Worker<C>)
    requires Consistent(writes, s) && action.w in s.workers && x == s.workers[action.w]
    ensures Consistent(writes, Resume(a, writes, s, action, x))
  {
    var w := action.w;
    assert Holds(s.log, w, x);
    match x
    case Called(base, ver, event) => MarkKeeps(writes, s, w, x, event);
    case Handling(base, ver, event) =>
      if action.CommitSuccess? {
        UpdateKeeps(writes, s, w, base, ver, Succeed(event, action.attempts, action.dones), None);
      } else if action.FlushFailure? {
        FlushKeeps(writes, s, w, x, event, action.attempts, BeforeFlush(a, base, event, action.attempts));
      }
    case Failing(base, ver, event, attempts) =>
      InterruptKeeps(writes, s, w, x, Step(event, attempts));
      UpdateKeeps(writes, s, w, base, ver, Fail(event, attempts, []), None);
    case Unwinding(_, _, _, _, _, _) => UnwindKeeps(a.registered, writes, s, action, x);
    case Swept(_, _) => SweepKeeps(writes, s, action, x);
    case Continuing(_, _) => ReleaseKeeps(writes, s, w, x);
    case Expired =>
  }

  /** The updates between a commit and its snapshot are the worker's own. */
  lemma OwnAt<C>(writes: Rule<C>, log: seq<Commit<C>>, k: nat)
    requires Logged(writes, log) && 0 < k < |log|
    ensures Own(log, log[k].worker, log[k].base, k) && (log[k].act.Unlock? ==> log[k].base == k)
  {
    assert Chained(writes, log, k);
  }

  /** Every atomic step of every worker keeps the chain. */
  lemma PerformKeeps<C>(a: Actor, writes: Rule<C>, s: World<C>, action: Action<C>)
    requires Consistent(writes, s)
    ensures Consistent(writes, Perform(a, writes, s, action))
  {
    if action.GetTransaction? || action.QueryStuck? || action.QueryExpired? {
      OpenKeeps(writes, s, action, action.GetTransaction? && s.tx.Some? && Matched(a, s.tx.value.row.state, action.event));
    } else if action.w in s.workers {
      ResumeKeeps(a, writes, s, action, s.workers[action.w]);
    }
  }

  lemma OpenKeeps<C>(writes: Rule<C>, s: World<C>, action: Action<C>, matched: bool)
    requires Consistent(writes, s)
    ensures Consistent(writes, Open(s, action, matched))
  {
    if s.tx.Some? {
      var row := s.tx.value.row;
      var v := row.version;
      SnapshotKeeps(writes, s, action.w, Swept(row, v));
      if action.GetTransaction? {
        SnapshotKeeps(writes, s, action.w, Called(row, v, action.event));
        SnapshotKeeps(writes, s, action.w, Handling(row, v, action.event));
      }
    }
  }

  lemma SnapshotKeeps<C>(writes: Rule<C>, s: World<C>, w: nat, x: Worker<C>)
    requires Consistent(writes, s) && s.tx.Some?
    requires !x.Expired? && x.base == s.tx.value.row && x.ver == x.base.version
    ensures Consistent(writes, Continue(s, w, x))
  {}

  /** The log is only ever extended. */
  lemma PerformExtends<C>(a: Actor, writes: Rule<C>, s: World<C>, action: Action<C>)
    ensures s.log <= Perform(a, writes, s, action).log
  {}

  lemma {:induction false} RunExtends<C>(a: Actor, writes: Rule<C>, s: World<C>, actions: seq<Action<C>>)
    ensures s.log <= Run(a, writes, s, actions).log
    decreases |actions|
  {
    if actions != [] {
      PerformExtends(a, writes, s, actions[0]);
      RunExtends(a, writes, Perform(a, writes, s, actions[0]), actions[1..]);
    }
  }

  lemma {:induction false} RunKeeps<C>(a: Actor, writes: Rule<C>, s: World<C>, actions: seq<Action<C>>)
    requires Consistent(writes, s)
    ensures Consistent(writes, Run(a, writes, s, actions))
    decreases |actions|
  {
    if actions != [] {
      PerformKeeps(a, writes, s, actions[0]);
      RunKeeps(a, writes, Perform(a, writes, s, actions[0]), actions[1..]);
    }
  }
}
