/** The unwindings of a transaction inside a run of the protocol: whatever else is interleaved, what an
    unwinding commits is what the compensators returned for the entries added since the one before,
    as long as none is left unfinished (runtime/actor.ts, unwindCompensationStack and its callers). */
module Unwindings {
  import opened Records
  import opened Stores
  import opened Calls
  import opened Protocol
  import opened CallLoops
  import S = Saga

  function Answer<C>(h: S.Handlers<C>, e: Stores.Entry<C>, ctx: C): Option<C> {
    if e.item.comp.key in h.registered then h.run(e, ctx) else None
  }

  /** The context that an unwinding starts from: the working context of the failed call, or the
      stored one of a sweep. */
  type Start<!C> = (Row<C>, Why<C>) -> C

  function Starts<C>(a: Actor): Start<C> {
    (base, why) => StartOf(a, base, why)
  }

  function StartOf<C>(a: Actor, base: Row<C>, why: Why<C>): C {
    match why
    case Sweep => base.context
    case Step(event, attempts) =>
      if |attempts| == 0 then base.context
      else
        match UntilFailure(a, base, event, attempts)
        case None => base.context
        case Some(now) => now.context
  }

  // ---- Results, entry by entry ----

  lemma {:induction false} ResultsExtend<C>(h: S.Handlers<C>, es: seq<Stores.Entry<C>>, e: Stores.Entry<C>, ctx: C)
    ensures Results(h, es + [e], ctx) == Results(h, es, ctx) + [Answer(h, e, Latest(Results(h, es, ctx), ctx))]
    decreases |es|
  {
    if es == [] {
      assert es + [e] == [e] && [e][1..] == [];
    } else {
      assert (es + [e])[0] == es[0] && (es + [e])[1..] == es[1..] + [e];
      var next := S.Compensated(h, es[0], ctx);
      ResultsExtend(h, es[1..], e, next);
      LatestOfRest(Answer(h, es[0], ctx), Results(h, es[1..], next), ctx);
    }
  }

  lemma {:induction false} ResultsLength<C>(h: S.Handlers<C>, es: seq<Stores.Entry<C>>, ctx: C)
    ensures |Results(h, es, ctx)| == |es|
    decreases |es|
  {
    if es != [] { ResultsLength(h, es[1..], S.Compensated(h, es[0], ctx)); }
  }

  // ---- Stacks between two unwindings ----

  /** A stack on which only the entries from `lo` up to `hi` are left to compensate. */
  function Between<C>(comps: seq<Comp<C>>, lo: nat, hi: nat): seq<Item<C>> {
    seq(|comps|, i requires 0 <= i < |comps| => Item(comps[i], !(lo <= i < hi)))
  }

  /** The entries from `lo` on, newest first, as an unwinding finds them. */
  function Entries<C>(comps: seq<Comp<C>>, lo: nat): seq<Stores.Entry<C>> {
    Uncompensated(Between(comps, lo, |comps|))
  }

  /** The entries from `lo` on are all that is left. */
  ghost predicate PendingFrom<C>(stack: seq<Item<C>>, lo: nat) {
    lo <= |stack| && stack == Between(CompsOf(stack), lo, |stack|)
  }

  lemma {:induction false} BetweenEntries<C>(comps: seq<Comp<C>>, lo: nat, hi: nat)
    requires lo <= hi <= |comps|
    ensures var es := Uncompensated(Between(comps, lo, hi));
      |es| == hi - lo && forall i :: 0 <= i < |es| ==> es[i] == Stores.Entry(hi - i, Item(comps[hi - 1 - i], false))
    decreases |comps|
  {
    if comps != [] {
      var n := |comps| - 1;
      var init := comps[..n];
      var stack := Between(comps, lo, hi);
      assert stack[..n] == Between(init, lo, if hi <= n then hi else n);
      if hi <= n {
        BetweenEntries(init, lo, hi);
      } else if lo <= n {
        BetweenEntries(init, lo, n);
        assert stack[n] == Item(comps[n], false);
      } else {
        BetweenEntries(init, n, n);
        assert stack[..n] == Between(init, n, n);
      }
    }
  }

  /** The older entries come last. */
  lemma BetweenSuffix<C>(comps: seq<Comp<C>>, lo: nat, hi: nat)
    requires lo <= hi <= |comps|
    ensures |Entries(comps, lo)| == |comps| - lo
    ensures Uncompensated(Between(comps, lo, hi)) == Entries(comps, lo)[|comps| - hi..]
  {
    BetweenEntries(comps, lo, hi);
    BetweenEntries(comps, lo, |comps|);
  }

  /** Marking the newest of them. */
  lemma MarkBetween<C>(comps: seq<Comp<C>>, lo: nat, hi: nat)
    requires lo < hi <= |comps|
    ensures MarkItem(Between(comps, lo, hi), hi) == Between(comps, lo, hi - 1)
  {}

  lemma PendingAppend<C>(stack: seq<Item<C>>, lo: nat, comps: seq<Comp<C>>)
    requires PendingFrom(stack, lo)
    ensures PendingFrom(stack + Stores.Pending(comps), lo)
  {
    var all := stack + Stores.Pending(comps);
    assert CompsOf(all) == CompsOf(stack) + comps;
    forall i | 0 <= i < |all| ensures all[i] == Between(CompsOf(all), lo, |all|)[i] {
      if i < |stack| { assert stack[i] == Between(CompsOf(stack), lo, |stack|)[i]; }
    }
  }

  // ---- Unwindings in the log ----

  ghost predicate SameRun<C>(log: seq<Commit<C>>, k: nat)
    requires 0 < k < |log|
  {
    log[k].worker == log[k - 1].worker && log[k].base == log[k - 1].base
  }

  predicate Ends<C>(act: Act<C>) {
    act.Fail? || act.Recover?
  }

  /** The unwinding that began at j was ended by its own worker. */
  ghost predicate Finished<C>(log: seq<Commit<C>>, j: nat) {
    j + 1 < |log| && SameRun(log, j + 1) && Ends(log[j + 1].act)
  }

  /** Up to version k, the last unwinding that began, if any, was finished. */
  ghost predicate CalmAt<C>(log: seq<Commit<C>>, k: nat)
    requires k <= |log|
  {
    k == 0 || (!log[k - 1].act.Compensate? && if k > 1 && log[k - 2].act.Compensate? then Finished(log, k - 2) else CalmAt(log, k - 1))
  }

  ghost predicate Calm<C>(log: seq<Commit<C>>) {
    CalmAt(log, |log|)
  }

  /** An unwinding begins at kc, and the last one before it was finished. */
  ghost predicate FreshAt<C>(log: seq<Commit<C>>, kc: nat) {
    kc < |log| && log[kc].act.Compensate? && CalmAt(log, kc)
  }

  /** The version that the last finished unwinding up to version k left, or the first one. */
  ghost function RestartAt<C>(log: seq<Commit<C>>, k: nat): (v: nat)
    requires k <= |log|
    ensures v <= k && (k > 0 ==> v > 0)
  {
    if k <= 1 then k
    else if log[k - 2].act.Compensate? && Finished(log, k - 2) then k
    else RestartAt(log, k - 1)
  }

  /** How many entries those unwindings had on the stack. */
  ghost function Past<C>(writes: Rule<C>, log: seq<Commit<C>>, k: nat): nat
    requires 0 < k <= |log|
  {
    |Appended(writes, log, RestartAt(log, k) - 1)|
  }

  lemma {:induction false} RestartGrows<C>(log: seq<Commit<C>>, c: Commit<C>, k: nat)
    requires k <= |log|
    ensures RestartAt(log + [c], k) == RestartAt(log, k)
    decreases k
  {
    if k > 1 {
      assert (log + [c])[k - 2] == log[k - 2] && (log + [c])[k - 1] == log[k - 1];
      RestartGrows(log, c, k - 1);
    }
  }

  lemma PastGrows<C>(writes: Rule<C>, log: seq<Commit<C>>, c: Commit<C>, k: nat)
    requires 0 < k <= |log|
    ensures Past(writes, log + [c], k) == Past(writes, log, k)
  {
    RestartGrows(log, c, k);
    AppendedGrows(writes, log, c, RestartAt(log, k) - 1);
  }

  // ---- The worker that unwinds ----

  /** How far the worker is: it has what the compensators returned for the entries before `todo`, and
      for the first of them if it is called; the entries before `todo` are marked. */
  ghost predicate InProgress<C>(h: S.Handlers<C>, lo: nat, ctx: C, stack: seq<Item<C>>, x: Worker<C>)
    requires x.Unwinding?
  {
    match x.todo
    case None => PendingFrom(stack, lo) && x.results == [] && !x.called
    case Some(t) =>
      && lo + |t| <= |stack| && stack == Between(CompsOf(stack), lo, lo + |t|) && t == Uncompensated(stack)
      && (x.called ==> t != [])
      && Progress(h, Entries(CompsOf(stack), lo), |stack| - lo - |t|, ctx, x.called, x.results)
  }

  /** The results for the first n entries, and the next one if it is called. */
  ghost predicate Progress<C>(h: S.Handlers<C>, es: seq<Stores.Entry<C>>, n: nat, ctx: C, called: bool, results: seq<Option<C>>) {
    var m := if called then n + 1 else n;
    m <= |es| && results == Results(h, es[..m], ctx)
  }

  /** A worker's last update was COMPENSATING exactly when it is unwinding, and then it has not ended
      the unwinding. */
  ghost predicate Placed<C>(log: seq<Commit<C>>, w: nat, x: Worker<C>) {
    x.Expired? || (
      && 1 <= x.base.version <= x.ver <= |log|
      && if x.Unwinding? then
           && x.base.version < x.ver && log[x.ver - 1].act.Compensate? && !Finished(log, x.ver - 1)
           && log[x.ver - 1].worker == w && log[x.ver - 1].base == x.base.version
         else x.base.version < x.ver ==> !log[x.ver - 1].act.Compensate?)
  }

  /** The update after COMPENSATING, if it ends that unwinding, carries what the compensators returned. */
  ghost predicate Answers<C>(h: S.Handlers<C>, start: Start<C>, writes: Rule<C>, log: seq<Commit<C>>, kc: nat)
    requires 0 < kc && kc + 1 < |log|
  {
    var c := log[kc + 1];
    SameRun(log, kc + 1) && 1 <= c.base <= kc && Ends(c.act) ==>
      c.act.results == Results(h, Entries(Appended(writes, log, kc + 1), Past(writes, log, kc + 1)),
        start(log[c.base - 1].row, if c.act.Recover? then Sweep else Why.Step(c.act.event, c.act.attempts)))
  }

  ghost predicate Untouched<C>(writes: Rule<C>, s: World<C>) {
    |s.log| > 0 && Calm(s.log) && s.tx.Some? ==> PendingFrom(s.tx.value.stack, Past(writes, s.log, |s.log|))
  }

  /** The worker is unwinding, and nobody has changed the record since. */
  ghost predicate Holder<C>(s: World<C>, w: nat) {
    w in s.workers && s.workers[w].Unwinding? && s.workers[w].ver == |s.log|
  }

  /** Its list is what is left to compensate. */
  ghost predicate Exact<C>(s: World<C>) {
    s.tx.Some? ==> forall w :: Holder(s, w) && s.workers[w].todo.Some? ==> s.workers[w].todo.value == Uncompensated(s.tx.value.stack)
  }

  ghost predicate Underway<C>(h: S.Handlers<C>, start: Start<C>, writes: Rule<C>, s: World<C>) {
    forall kc: nat :: FreshAt(s.log, kc) && |s.log| == kc + 1 && s.tx.Some? ==>
      forall w :: Holder(s, w) ==>
        InProgress(h, Past(writes, s.log, kc + 1), start(s.workers[w].base, s.workers[w].why), s.tx.value.stack, s.workers[w])
  }

  ghost predicate Ended<C>(h: S.Handlers<C>, start: Start<C>, writes: Rule<C>, log: seq<Commit<C>>) {
    forall kc: nat :: FreshAt(log, kc) && kc + 1 < |log| ==> 0 < kc && Answers(h, start, writes, log, kc)
  }

  ghost predicate AllPlaced<C>(s: World<C>) {
    && |s.log| > 0 && !s.log[0].act.Compensate?
    && forall w :: w in s.workers ==> Placed(s.log, w, s.workers[w])
  }

  ghost predicate Faithful<C>(h: S.Handlers<C>, start: Start<C>, writes: Rule<C>, s: World<C>) {
    && Consistent(writes, s) && AllPlaced(s) && Exact(s) && Untouched(writes, s)
    && Underway(h, start, writes, s) && Ended(h, start, writes, s.log)
  }

  // ---- What one update does to it ----

  /** The updates a worker makes, by its position. */
  ghost predicate Fitting<C>(x: Worker<C>, act: Act<C>, next: Option<Worker<C>>) {
    && !x.Expired?
    && (if act.Compensate? then
          next.Some? && next.value.Unwinding? && next.value.todo.None? && next.value.results == [] && !next.value.called
        else next.Some? ==> !next.value.Unwinding?)
    && (next.Some? ==> !next.value.Expired? && next.value.base == x.base && next.value.ver == x.ver + 1)
    && (x.Unwinding? ==>
          && x.todo == Some([]) && next.None?
          && act == (if x.why.Sweep? then Recover(x.results) else Fail(x.why.event, x.why.attempts, x.results)))
  }

  /** A further commit finishes at most the unwinding that began right before it. */
  lemma FinishedGrows<C>(log: seq<Commit<C>>, c: Commit<C>, j: nat)
    requires j < |log|
    ensures j + 1 < |log| ==> (Finished(log + [c], j) <==> Finished(log, j))
    ensures j + 1 == |log| ==> (Finished(log + [c], j) <==> c.worker == log[j].worker && c.base == log[j].base && Ends(c.act))
  {
    assert (log + [c])[j] == log[j];
    if j + 1 < |log| { assert (log + [c])[j + 1] == log[j + 1]; }
  }

  lemma {:induction false} CalmGrows<C>(log: seq<Commit<C>>, c: Commit<C>, k: nat)
    requires k <= |log|
    ensures CalmAt(log + [c], k) <==> CalmAt(log, k)
    decreases k
  {
    if k > 0 {
      assert (log + [c])[k - 1] == log[k - 1];
      CalmGrows(log, c, k - 1);
      if k > 1 { FinishedGrows(log, c, k - 2); }
    }
  }

  lemma FreshGrows<C>(log: seq<Commit<C>>, c: Commit<C>, kc: nat)
    requires kc < |log|
    ensures FreshAt(log + [c], kc) <==> FreshAt(log, kc)
  {
    CalmGrows(log, c, kc);
  }

  /** A new unwinding is fresh when the last one before it was finished. */
  lemma FreshNew<C>(log: seq<Commit<C>>, c: Commit<C>)
    requires FreshAt(log + [c], |log|)
    ensures Calm(log) && c.act.Compensate?
  {
    CalmGrows(log, c, |log|);
  }

  /** After a commit all is calm if it was before it, or it ended an unwinding. */
  lemma CalmByNew<C>(log: seq<Commit<C>>, c: Commit<C>)
    requires |log| > 0 && Calm(log + [c])
    ensures !c.act.Compensate?
    ensures if log[|log| - 1].act.Compensate? then Finished(log + [c], |log| - 1) else Calm(log)
  {
    assert (log + [c])[|log|] == c && (log + [c])[|log| - 1] == log[|log| - 1];
    CalmGrows(log, c, |log|);
  }

  lemma PlacedGrows<C>(log: seq<Commit<C>>, c: Commit<C>, v: nat, y: Worker<C>)
    requires Placed(log, v, y) && c.worker != v
    ensures Placed(log + [c], v, y)
  {
    if y.Unwinding? { FinishedGrows(log, c, y.ver - 1); }
  }

  lemma UpdatePlaced<C>(writes: Rule<C>, s: World<C>, w: nat, act: Act<C>, next: Option<Worker<C>>)
    requires AllPlaced(s) && w in s.workers && Fitting(s.workers[w], act, next)
    requires s.tx.Some? ==> s.tx.value.row.version == |s.log|
    ensures AllPlaced(Update(writes, s, w, s.workers[w].base, s.workers[w].ver, act, next))
  {
    var x := s.workers[w];
    assert Placed(s.log, w, x);
    var after := Update(writes, s, w, x.base, x.ver, act, next);
    if after.log != s.log {
      var c := after.log[|s.log|];
      assert after.log == s.log + [c];
      forall v | v in after.workers ensures Placed(after.log, v, after.workers[v]) {
        if v != w { PlacedGrows(s.log, c, v, s.workers[v]); }
      }
    }
  }

  /** The worker whose commit ends an unwinding is the one that unwound, and nothing is left. */
  lemma EnderUnwound<C>(h: S.Handlers<C>, start: Start<C>, writes: Rule<C>, s: World<C>, w: nat, c: Commit<C>)
    requires Faithful(h, start, writes, s) && w in s.workers && Fitting(s.workers[w], c.act, None) && s.tx.Some?
    requires s.tx.value.row.version == s.workers[w].ver && c.worker == w && c.base == s.workers[w].base.version
    requires s.log[|s.log| - 1].act.Compensate? && Finished(s.log + [c], |s.log| - 1)
    ensures Holder(s, w) && AllDone(s.tx.value.stack)
    ensures FreshAt(s.log, |s.log| - 1) ==>
      InProgress(h, Past(writes, s.log, |s.log|), start(s.workers[w].base, s.workers[w].why), s.tx.value.stack, s.workers[w])
  {
    var x := s.workers[w];
    var kc: nat := |s.log| - 1;
    FinishedGrows(s.log, c, kc);
    assert Placed(s.log, w, x) && Holds(s.log, w, x);
    assert s.log[kc].base == x.base.version;
    assert Own(s.log, w, x.base.version, x.ver);
    if x.base.version == x.ver {
      BaseBelow(writes, s.log, kc);
    }
    NothingPending(s.tx.value.stack);
  }

  lemma BaseBelow<C>(writes: Rule<C>, log: seq<Commit<C>>, k: nat)
    requires Logged(writes, log) && 0 < k < |log|
    ensures log[k].base <= k
  {
    assert Chained(writes, log, k);
  }

  /** After an update all that is left to compensate was added since the last finished unwinding. */
  lemma UpdateUntouched<C>(h: S.Handlers<C>, start: Start<C>, writes: Rule<C>, s: World<C>, w: nat, act: Act<C>, next: Option<Worker<C>>)
    requires Faithful(h, start, writes, s) && w in s.workers && Fitting(s.workers[w], act, next)
    ensures Untouched(writes, Update(writes, s, w, s.workers[w].base, s.workers[w].ver, act, next))
  {
    var x := s.workers[w];
    var after := Update(writes, s, w, x.base, x.ver, act, next);
    if after.log != s.log && Calm(after.log) {
      var c := after.log[|s.log|];
      assert after.log == s.log + [c];
      CalmByNew(s.log, c);
      if !s.log[|s.log| - 1].act.Compensate? {
        StaysUntouched(writes, s.log, c);
        PendingAppend(s.tx.value.stack, Past(writes, s.log, |s.log|), writes(x.base, act).value.comps);
      } else {
        FinishedGrows(s.log, c, |s.log| - 1);
        EnderUnwound(h, start, writes, s, w, c);
        ClearedUntouched(writes, s.log, c, s.tx.value.stack);
        PendingAppend(s.tx.value.stack, |s.tx.value.stack|, writes(x.base, act).value.comps);
      }
    }
  }

  lemma StaysUntouched<C>(writes: Rule<C>, log: seq<Commit<C>>, c: Commit<C>)
    requires |log| > 0 && !log[|log| - 1].act.Compensate?
    ensures Past(writes, log + [c], |log| + 1) == Past(writes, log, |log|)
  {
    assert (log + [c])[|log| - 1] == log[|log| - 1];
    PastGrows(writes, log, c, |log|);
    assert RestartAt(log + [c], |log| + 1) == RestartAt(log + [c], |log|);
  }

  /** A finished unwinding leaves nothing to compensate. */
  lemma {:induction false} ClearedUntouched<C>(writes: Rule<C>, log: seq<Commit<C>>, c: Commit<C>, stack: seq<Item<C>>)
    requires |log| > 0 && log[|log| - 1].act.Compensate? && Finished(log + [c], |log| - 1)
    requires CompsOf(stack) == Appended(writes, log, |log|) && AllDone(stack)
    ensures Past(writes, log + [c], |log| + 1) == |stack| && PendingFrom(stack, |stack|)
  {
    assert (log + [c])[|log| - 1] == log[|log| - 1];
    AppendedGrows(writes, log, c, |log|);
    assert RestartAt(log + [c], |log| + 1) == |log| + 1;
    assert |CompsOf(stack)| == |stack|;
  }

  /** Nobody holds an unwinding when all is calm. */
  lemma NobodyUnwinds<C>(s: World<C>, w: nat)
    requires AllPlaced(s) && Calm(s.log)
    ensures !Holder(s, w)
  {
    if w in s.workers { assert Placed(s.log, w, s.workers[w]); }
  }

  /** After an update only its own worker can be the holder. */
  lemma UpdateHolder<C>(writes: Rule<C>, s: World<C>, w: nat, act: Act<C>, next: Option<Worker<C>>, v: nat)
    requires AllPlaced(s) && w in s.workers && Fitting(s.workers[w], act, next)
    ensures var after := Update(writes, s, w, s.workers[w].base, s.workers[w].ver, act, next);
      Holder(after, v) ==> if after.log == s.log then v != w && Holder(s, v) else v == w && after.workers[v].todo.None?
  {
    if v in s.workers { assert Placed(s.log, v, s.workers[v]); }
  }

  lemma UpdateExact<C>(writes: Rule<C>, s: World<C>, w: nat, act: Act<C>, next: Option<Worker<C>>)
    requires AllPlaced(s) && Exact(s) && w in s.workers && Fitting(s.workers[w], act, next)
    ensures Exact(Update(writes, s, w, s.workers[w].base, s.workers[w].ver, act, next))
  {
    var after := Update(writes, s, w, s.workers[w].base, s.workers[w].ver, act, next);
    forall v | Holder(after, v) && after.workers[v].todo.Some? && after.tx.Some?
      ensures after.workers[v].todo.value == Uncompensated(after.tx.value.stack)
    {
      UpdateHolder(writes, s, w, act, next, v);
    }
  }

  /** A new unwinding finds what was added since the last finished one. */
  lemma {:induction false} BeginsInProgress<C>(h: S.Handlers<C>, start: Start<C>, writes: Rule<C>, s: World<C>, c: Commit<C>, comps: seq<Comp<C>>, y: Worker<C>)
    requires |s.log| > 0 && Untouched(writes, s) && Calm(s.log) && s.tx.Some?
    requires y.Unwinding? && y.todo.None? && y.results == [] && !y.called
    ensures InProgress(h, Past(writes, s.log + [c], |s.log| + 1), start(y.base, y.why), s.tx.value.stack + Stores.Pending(comps), y)
  {
    StaysUntouched(writes, s.log, c);
    PendingAppend(s.tx.value.stack, Past(writes, s.log, |s.log|), comps);
  }

  lemma UpdateUnderway<C>(h: S.Handlers<C>, start: Start<C>, writes: Rule<C>, s: World<C>, w: nat, act: Act<C>, next: Option<Worker<C>>)
    requires Faithful(h, start, writes, s) && w in s.workers && Fitting(s.workers[w], act, next)
    ensures Underway(h, start, writes, Update(writes, s, w, s.workers[w].base, s.workers[w].ver, act, next))
  {
    var x := s.workers[w];
    var after := Update(writes, s, w, x.base, x.ver, act, next);
    if after.log == s.log {
      assert after.workers == s.workers - {w} && after.tx == s.tx;
    } else {
      var c := after.log[|s.log|];
      assert after.log == s.log + [c];
      forall kc: nat, v | FreshAt(after.log, kc) && |after.log| == kc + 1 && Holder(after, v)
        ensures InProgress(h, Past(writes, after.log, kc + 1), start(after.workers[v].base, after.workers[v].why), after.tx.value.stack, after.workers[v])
      {
        assert kc == |s.log|;
        FreshNew(s.log, c);
        UpdateHolder(writes, s, w, act, next, v);
        BeginsInProgress(h, start, writes, s, c, writes(x.base, act).value.comps, next.value);
      }
    }
  }

  /** The commit after COMPENSATING. */
  lemma UpdateEnds<C>(h: S.Handlers<C>, start: Start<C>, writes: Rule<C>, s: World<C>, w: nat, act: Act<C>, kc: nat)
    requires Faithful(h, start, writes, s) && w in s.workers && Fitting(s.workers[w], act, None)
    requires FreshAt(s.log, kc) && |s.log| == kc + 1 && s.tx.Some? && s.tx.value.row.version == s.workers[w].ver
    ensures 0 < kc
    ensures var c := Commit(s.tx.value.row, w, s.workers[w].base.version, act); Answers(h, start, writes, s.log + [c], kc)
  {
    var x := s.workers[w];
    var c := Commit(s.tx.value.row, w, x.base.version, act);
    var log := s.log + [c];
    assert log[kc] == s.log[kc] && log[kc + 1] == c;
    AppendedGrows(writes, s.log, c, kc + 1);
    PastGrows(writes, s.log, c, kc + 1);
    if Finished(log, kc) {
      EnderUnwound(h, start, writes, s, w, c);
      assert log[c.base - 1] == s.log[c.base - 1];
      assert Holds(s.log, w, x);
      WholeProgress(h, Past(writes, s.log, |s.log|), start(x.base, x.why), s.tx.value.stack, x);
    }
  }

  /** With nothing left, the results are those for all entries. */
  lemma {:induction false} WholeProgress<C>(h: S.Handlers<C>, lo: nat, ctx: C, stack: seq<Item<C>>, x: Worker<C>)
    requires x.Unwinding? && x.todo == Some([]) && InProgress(h, lo, ctx, stack, x)
    ensures x.results == Results(h, Entries(CompsOf(stack), lo), ctx)
  {
    var es := Entries(CompsOf(stack), lo);
    BetweenSuffix(CompsOf(stack), lo, |stack|);
    assert es[..|es|] == es && |CompsOf(stack)| == |stack|;
  }

  lemma AnswersStay<C>(h: S.Handlers<C>, start: Start<C>, writes: Rule<C>, log: seq<Commit<C>>, c: Commit<C>, kc: nat)
    requires 0 < kc && kc + 1 < |log| && Answers(h, start, writes, log, kc)
    ensures Answers(h, start, writes, log + [c], kc)
  {
    AppendedGrows(writes, log, c, kc + 1);
    PastGrows(writes, log, c, kc + 1);
  }

  lemma UpdateEnded<C>(h: S.Handlers<C>, start: Start<C>, writes: Rule<C>, s: World<C>, w: nat, act: Act<C>, next: Option<Worker<C>>)
    requires Faithful(h, start, writes, s) && w in s.workers && Fitting(s.workers[w], act, next)
    ensures Ended(h, start, writes, Update(writes, s, w, s.workers[w].base, s.workers[w].ver, act, next).log)
  {
    var x := s.workers[w];
    var after := Update(writes, s, w, x.base, x.ver, act, next);
    if after.log != s.log {
      var c := after.log[|s.log|];
      assert after.log == s.log + [c];
      forall kc: nat | FreshAt(after.log, kc) && kc + 1 < |after.log| ensures 0 < kc && Answers(h, start, writes, after.log, kc) {
        FreshGrows(s.log, c, kc);
        if kc + 1 < |s.log| {
          AnswersStay(h, start, writes, s.log, c, kc);
        } else {
          CommitAnswers(h, start, writes, s, w, act, next, kc);
        }
      }
    }
  }

  lemma CommitAnswers<C>(h: S.Handlers<C>, start: Start<C>, writes: Rule<C>, s: World<C>, w: nat, act: Act<C>, next: Option<Worker<C>>, kc: nat)
    requires Faithful(h, start, writes, s) && w in s.workers && Fitting(s.workers[w], act, next)
    requires FreshAt(s.log, kc) && |s.log| == kc + 1 && s.tx.Some? && s.tx.value.row.version == s.workers[w].ver
    requires writes(s.workers[w].base, act).Some?
    ensures var after := Update(writes, s, w, s.workers[w].base, s.workers[w].ver, act, next);
      0 < kc && kc + 1 < |after.log| && Answers(h, start, writes, after.log, kc)
  {
    var after := Update(writes, s, w, s.workers[w].base, s.workers[w].ver, act, next);
    var c := after.log[kc + 1];
    var d := Commit(s.tx.value.row, w, s.workers[w].base.version, act);
    assert after.log == s.log + [c];
    if next.None? {
      UpdateEnds(h, start, writes, s, w, act, kc);
      SameAnswers(h, start, writes, s.log, c, d, kc);
    } else {
      assert Placed(s.log, w, s.workers[w]);
    }
  }

  /** What the commit wrote does not matter for its results. */
  lemma SameAnswers<C>(h: S.Handlers<C>, start: Start<C>, writes: Rule<C>, log: seq<Commit<C>>, c: Commit<C>, d: Commit<C>, kc: nat)
    requires 0 < kc && |log| == kc + 1 && c.worker == d.worker && c.base == d.base && c.act == d.act
    requires Answers(h, start, writes, log + [d], kc)
    ensures Answers(h, start, writes, log + [c], kc)
  {
    AppendedGrows(writes, log, c, kc + 1);
    AppendedGrows(writes, log, d, kc + 1);
    PastGrows(writes, log, c, kc + 1);
    PastGrows(writes, log, d, kc + 1);
  }

  lemma UpdateFaithful<C>(h: S.Handlers<C>, start: Start<C>, writes: Rule<C>, s: World<C>, w: nat, act: Act<C>, next: Option<Worker<C>>)
    requires Faithful(h, start, writes, s) && w in s.workers && Fitting(s.workers[w], act, next)
    requires Consistent(writes, Update(writes, s, w, s.workers[w].base, s.workers[w].ver, act, next))
    ensures Faithful(h, start, writes, Update(writes, s, w, s.workers[w].base, s.workers[w].ver, act, next))
  {
    UpdatePlaced(writes, s, w, act, next);
    UpdateExact(writes, s, w, act, next);
    UpdateUntouched(h, start, writes, s, w, act, next);
    UpdateUnderway(h, start, writes, s, w, act, next);
    UpdateEnded(h, start, writes, s, w, act, next);
  }

  // ---- The unwinding itself ----

  /** Every call of a compensator returns what the handlers return. A worker that is unwinding while
      another one has changed the record takes no further step on the stack. */
  ghost predicate Answered<C>(h: S.Handlers<C>, start: Start<C>, s: World<C>, action: Action<C>) {
    Timely(s, action) && Told(h, start, s, action)
  }

  ghost predicate Told<C>(h: S.Handlers<C>, start: Start<C>, s: World<C>, action: Action<C>) {
    action.CallNext? && action.w in s.workers ==>
      var x := s.workers[action.w];
      x.Unwinding? && x.todo.Some? && |x.todo.value| > 0 && !x.called ==>
        action.result == Answer(h, x.todo.value[0], Latest(x.results, start(x.base, x.why)))
  }

  ghost predicate Timely<C>(s: World<C>, action: Action<C>) {
    (action.ReadStack? || action.CallNext? || action.MarkNext?) && action.w in s.workers && s.workers[action.w].Unwinding? ==>
      Holder(s, action.w)
  }

  lemma {:induction false} ReadProgress<C>(h: S.Handlers<C>, lo: nat, ctx: C, stack: seq<Item<C>>, x: Worker<C>)
    requires x.Unwinding? && x.todo.None? && InProgress(h, lo, ctx, stack, x)
    ensures InProgress(h, lo, ctx, stack, x.(todo := Some(Uncompensated(stack)), called := false))
  {
    BetweenSuffix(CompsOf(stack), lo, |stack|);
    assert Entries(CompsOf(stack), lo) == Uncompensated(stack);
    NoResults(h, Entries(CompsOf(stack), lo), ctx);
  }

  lemma NoResults<C>(h: S.Handlers<C>, es: seq<Stores.Entry<C>>, ctx: C)
    ensures Progress(h, es, 0, ctx, false, [])
  {
    assert es[..0] == [];
  }

  lemma {:induction false} CallProgress<C>(h: S.Handlers<C>, lo: nat, ctx: C, stack: seq<Item<C>>, x: Worker<C>, result: Option<C>)
    requires x.Unwinding? && x.todo.Some? && x.todo.value != [] && !x.called && InProgress(h, lo, ctx, stack, x)
    requires result == Answer(h, x.todo.value[0], Latest(x.results, ctx))
    ensures InProgress(h, lo, ctx, stack, x.(called := true, results := x.results + [result]))
  {
    NextResult(h, lo, ctx, stack, x.todo.value, x.results, result);
  }

  /** The result for the first entry of `todo` is the next one. */
  lemma {:induction false} NextResult<C>(h: S.Handlers<C>, lo: nat, ctx: C, stack: seq<Item<C>>, t: seq<Stores.Entry<C>>, results: seq<Option<C>>, result: Option<C>)
    requires t != [] && lo + |t| <= |stack| && stack == Between(CompsOf(stack), lo, lo + |t|) && t == Uncompensated(stack)
    requires Progress(h, Entries(CompsOf(stack), lo), |stack| - lo - |t|, ctx, false, results)
    requires result == Answer(h, t[0], Latest(results, ctx))
    ensures Progress(h, Entries(CompsOf(stack), lo), |stack| - lo - |t|, ctx, true, results + [result])
  {
    var es := Entries(CompsOf(stack), lo);
    BetweenSuffix(CompsOf(stack), lo, lo + |t|);
    assert |CompsOf(stack)| == |stack|;
    OneMoreResult(h, es, |stack| - lo - |t|, ctx, results, result);
  }

  lemma {:induction false} OneMoreResult<C>(h: S.Handlers<C>, es: seq<Stores.Entry<C>>, n: nat, ctx: C, results: seq<Option<C>>, result: Option<C>)
    requires n < |es| && Progress(h, es, n, ctx, false, results) && result == Answer(h, es[n], Latest(results, ctx))
    ensures Progress(h, es, n, ctx, true, results + [result])
  {
    assert es[..n + 1] == es[..n] + [es[n]];
    ResultsExtend(h, es[..n], es[n], ctx);
  }

  lemma {:induction false} MarkProgress<C>(h: S.Handlers<C>, lo: nat, ctx: C, stack: seq<Item<C>>, x: Worker<C>)
    requires x.Unwinding? && x.todo.Some? && x.todo.value != [] && InProgress(h, lo, ctx, stack, x)
    requires x.called || x.todo.value[0].item.comp.key !in h.registered
    ensures InProgress(h, lo, ctx, MarkItem(stack, x.todo.value[0].stepSeq),
      x.(todo := Some(x.todo.value[1..]), called := false, results := if x.called then x.results else x.results + [None]))
  {
    var t := x.todo.value;
    var marked := MarkItem(stack, t[0].stepSeq);
    var results := if x.called then x.results else x.results + [None];
    if !x.called { NextResult(h, lo, ctx, stack, t, x.results, None); }
    MarkedBetween(stack, lo, t);
    NextProgress(h, Entries(CompsOf(stack), lo), |stack| - lo - |t|, ctx, results);
    assert |t[1..]| == |t| - 1;
    IsInProgress(h, lo, ctx, marked, t[1..], x.(todo := Some(t[1..]), called := false, results := results));
  }

  lemma {:induction false} IsInProgress<C>(h: S.Handlers<C>, lo: nat, ctx: C, stack: seq<Item<C>>, t: seq<Stores.Entry<C>>, x: Worker<C>)
    requires x.Unwinding? && x.todo == Some(t) && !x.called
    requires lo + |t| <= |stack| && stack == Between(CompsOf(stack), lo, lo + |t|) && t == Uncompensated(stack)
    requires Progress(h, Entries(CompsOf(stack), lo), |stack| - lo - |t|, ctx, false, x.results)
    ensures InProgress(h, lo, ctx, stack, x)
  {}

  /** The entry that was called is done. */
  lemma {:induction false} NextProgress<C>(h: S.Handlers<C>, es: seq<Stores.Entry<C>>, n: nat, ctx: C, results: seq<Option<C>>)
    requires Progress(h, es, n, ctx, true, results)
    ensures Progress(h, es, n + 1, ctx, false, results)
  {}

  lemma {:induction false} MarkedBetween<C>(stack: seq<Item<C>>, lo: nat, t: seq<Stores.Entry<C>>)
    requires t != [] && lo + |t| <= |stack| && stack == Between(CompsOf(stack), lo, lo + |t|) && t == Uncompensated(stack)
    ensures var marked := MarkItem(stack, t[0].stepSeq);
      && CompsOf(marked) == CompsOf(stack) && |marked| == |stack|
      && marked == Between(CompsOf(stack), lo, lo + |t| - 1) && t[1..] == Uncompensated(marked)
  {
    var comps := CompsOf(stack);
    var hi := lo + |t|;
    BetweenEntries(comps, lo, hi);
    MarkBetween(comps, lo, hi);
    BetweenEntries(comps, lo, hi - 1);
    assert CompsOf(MarkItem(stack, hi)) == comps;
  }

  // ---- Every step of the protocol ----

  /** A worker that is not unwinding moves on without an update. */
  lemma ContinueFaithful<C>(h: S.Handlers<C>, start: Start<C>, writes: Rule<C>, s: World<C>, w: nat, y: Worker<C>)
    requires Faithful(h, start, writes, s) && !y.Unwinding? && Placed(s.log, w, y) && Consistent(writes, Continue(s, w, y))
    ensures Faithful(h, start, writes, Continue(s, w, y))
  {}

  lemma DropFaithful<C>(h: S.Handlers<C>, start: Start<C>, writes: Rule<C>, s: World<C>, w: nat)
    requires Faithful(h, start, writes, s)
    ensures Faithful(h, start, writes, Drop(s, w)) && Faithful(h, start, writes, Drop(s, w).(tx := None))
  {}

  lemma UnwindFaithful<C>(h: S.Handlers<C>, start: Start<C>, writes: Rule<C>, s: World<C>, action: Action<C>, x: Worker<C>)
    requires Faithful(h, start, writes, s) && action.w in s.workers && x == s.workers[action.w] && x.Unwinding?
    requires Answered(h, start, s, action)
    ensures Faithful(h, start, writes, Unwind(h.registered, writes, s, action, x.base, x.ver, x.why, x.todo, x.called, x.results))
  {
    UnwindKeeps(h.registered, writes, s, action, x);
    if x.todo != Some([]) {
      StepFaithful(h, start, writes, s, action, x);
    } else if action.CommitFailure? {
      UpdateFaithful(h, start, writes, s, action.w,
        if x.why.Sweep? then Recover(x.results) else Fail(x.why.event, x.why.attempts, x.results), None);
    }
  }

  lemma StepFaithful<C>(h: S.Handlers<C>, start: Start<C>, writes: Rule<C>, s: World<C>, action: Action<C>, x: Worker<C>)
    requires Faithful(h, start, writes, s) && action.w in s.workers && x == s.workers[action.w] && x.Unwinding?
    requires Answered(h, start, s, action) && x.todo != Some([])
    requires Consistent(writes, Unwind(h.registered, writes, s, action, x.base, x.ver, x.why, x.todo, x.called, x.results))
    ensures Faithful(h, start, writes, Unwind(h.registered, writes, s, action, x.base, x.ver, x.why, x.todo, x.called, x.results))
  {
    var after := Unwind(h.registered, writes, s, action, x.base, x.ver, x.why, x.todo, x.called, x.results);
    if after != s {
      StepPlaced(s, after, action.w);
      StepExact(h, writes, s, action, x);
      StepUntouched(writes, s, after, action.w);
      StepUnderway(h, start, writes, s, action, x);
    }
  }

  lemma StepPlaced<C>(s: World<C>, after: World<C>, w: nat)
    requires AllPlaced(s) && after.log == s.log && w in s.workers && w in after.workers && after.workers == s.workers[w := after.workers[w]]
    requires s.workers[w].Unwinding? && after.workers[w].Unwinding?
    requires after.workers[w].base == s.workers[w].base && after.workers[w].ver == s.workers[w].ver
    ensures AllPlaced(after)
  {
    assert Placed(s.log, w, s.workers[w]);
  }

  /** A holder means that something unwinds. */
  lemma StepUntouched<C>(writes: Rule<C>, s: World<C>, after: World<C>, w: nat)
    requires AllPlaced(s) && Holder(s, w) && after.log == s.log
    ensures Untouched(writes, after)
  {
    if Calm(s.log) { NobodyUnwinds(s, w); }
  }

  lemma StepExact<C>(h: S.Handlers<C>, writes: Rule<C>, s: World<C>, action: Action<C>, x: Worker<C>)
    requires AllPlaced(s) && Exact(s) && Holder(s, action.w) && x == s.workers[action.w] && x.todo != Some([])
    ensures Exact(Unwind(h.registered, writes, s, action, x.base, x.ver, x.why, x.todo, x.called, x.results))
  {
    var after := Unwind(h.registered, writes, s, action, x.base, x.ver, x.why, x.todo, x.called, x.results);
    forall v | Holder(after, v) && after.workers[v].todo.Some? && after.tx.Some?
      ensures after.workers[v].todo.value == Uncompensated(after.tx.value.stack)
    {
      OneHolder(s, v, action.w);
      if x.todo.Some? { S.MarkNewest(s.tx.value.stack); }
    }
  }

  lemma StepUnderway<C>(h: S.Handlers<C>, start: Start<C>, writes: Rule<C>, s: World<C>, action: Action<C>, x: Worker<C>)
    requires Faithful(h, start, writes, s) && action.w in s.workers && x == s.workers[action.w] && x.Unwinding?
    requires Answered(h, start, s, action) && x.todo != Some([]) && Holder(s, action.w)
    ensures Underway(h, start, writes, Unwind(h.registered, writes, s, action, x.base, x.ver, x.why, x.todo, x.called, x.results))
  {
    var w := action.w;
    var after := Unwind(h.registered, writes, s, action, x.base, x.ver, x.why, x.todo, x.called, x.results);
    forall kc: nat, v | FreshAt(after.log, kc) && |after.log| == kc + 1 && after.tx.Some? && Holder(after, v)
      ensures InProgress(h, Past(writes, after.log, kc + 1), start(after.workers[v].base, after.workers[v].why), after.tx.value.stack, after.workers[v])
    {
      OneHolder(s, v, w);
      var lo := Past(writes, s.log, kc + 1);
      assert InProgress(h, lo, start(x.base, x.why), s.tx.value.stack, x);
      if x.todo.None? {
        ReadProgress(h, lo, start(x.base, x.why), s.tx.value.stack, x);
      } else if action.CallNext? && !x.called {
        CallProgress(h, lo, start(x.base, x.why), s.tx.value.stack, x, action.result);
      } else if action.MarkNext? && (x.called || x.todo.value[0].item.comp.key !in h.registered) {
        MarkProgress(h, lo, start(x.base, x.why), s.tx.value.stack, x);
      }
    }
  }

  /** There is at most one holder. */
  lemma OneHolder<C>(s: World<C>, v: nat, w: nat)
    requires AllPlaced(s) && Holder(s, v) && Holder(s, w)
    ensures v == w
  {
    assert Placed(s.log, v, s.workers[v]) && Placed(s.log, w, s.workers[w]);
  }

  lemma SweepFaithful<C>(h: S.Handlers<C>, start: Start<C>, writes: Rule<C>, s: World<C>, action: Action<C>, x: Worker<C>)
    requires Faithful(h, start, writes, s) && action.w in s.workers && x == s.workers[action.w] && x.Swept?
    ensures Faithful(h, start, writes, SweepOne(writes, s, action, x.base, x.ver))
  {
    SweepKeeps(writes, s, action, x);
    DropFaithful(h, start, writes, s, action.w);
    match action
    case MarkFailed(w) => UpdateFaithful(h, start, writes, s, w, MarkFail, None);
    case StartRecovery(w) =>
      UpdateFaithful(h, start, writes, s, w, Compensate, Some(Unwinding(x.base, x.ver + 1, Sweep, None, false, [])));
    case GetAgain(w) =>
      if s.tx.Some? { ContinueFaithful(h, start, writes, s, w, Continuing(s.tx.value.row, s.tx.value.row.version)); }
    case _ =>
  }

  lemma HandlingFaithful<C>(a: Actor, h: S.Handlers<C>, start: Start<C>, writes: Rule<C>, s: World<C>, action: Action<C>, x: Worker<C>)
    requires Faithful(h, start, writes, s) && action.w in s.workers && x == s.workers[action.w] && x.Handling?
    ensures Faithful(h, start, writes, Resume(a, writes, s, action, x))
  {
    ResumeKeeps(a, writes, s, action, x);
    DropFaithful(h, start, writes, s, action.w);
    assert Placed(s.log, action.w, x);
    if action.CommitSuccess? {
      UpdateFaithful(h, start, writes, s, action.w, Succeed(x.event, action.attempts, action.dones), None);
    } else if action.FlushFailure? {
      var now := BeforeFlush(a, x.base, x.event, action.attempts);
      if now.Some? && now.value.comps == [] {
        ContinueFaithful(h, start, writes, s, action.w, Failing(x.base, x.ver, x.event, action.attempts));
      } else if now.Some? {
        UpdateFaithful(h, start, writes, s, action.w, Append(x.event, action.attempts),
          Some(Failing(x.base, x.ver + 1, x.event, action.attempts)));
      }
    }
  }

  lemma FailingFaithful<C>(a: Actor, h: S.Handlers<C>, start: Start<C>, writes: Rule<C>, s: World<C>, action: Action<C>, x: Worker<C>)
    requires Faithful(h, start, writes, s) && action.w in s.workers && x == s.workers[action.w] && x.Failing?
    ensures Faithful(h, start, writes, Resume(a, writes, s, action, x))
  {
    ResumeKeeps(a, writes, s, action, x);
    var after := Resume(a, writes, s, action, x);
    if action.StartUnwind? && after != s {
      UpdateFaithful(h, start, writes, s, action.w, Compensate,
        Some(Unwinding(x.base, x.ver + 1, Why.Step(x.event, x.attempts), None, false, [])));
    } else if after != s {
      UpdateFaithful(h, start, writes, s, action.w, Fail(x.event, x.attempts, []), None);
    }
  }

  lemma CalledFaithful<C>(h: S.Handlers<C>, start: Start<C>, writes: Rule<C>, s: World<C>, w: nat, x: Worker<C>)
    requires Faithful(h, start, writes, s) && w in s.workers && x == s.workers[w] && x.Called?
    ensures Faithful(h, start, writes, Mark(writes, s, w, x.base, x.ver, x.event))
  {
    assert Holds(s.log, w, x);
    MarkKeeps(writes, s, w, x, x.event);
    UpdateFaithful(h, start, writes, s, w, Begin(x.event), Some(Handling(x.base, x.ver + 1, x.event)));
  }

  lemma ContinuingFaithful<C>(h: S.Handlers<C>, start: Start<C>, writes: Rule<C>, s: World<C>, w: nat, x: Worker<C>)
    requires Faithful(h, start, writes, s) && w in s.workers && x == s.workers[w] && x.Continuing?
    ensures Faithful(h, start, writes, Release(writes, s, w, x.base, x.ver))
  {
    assert Holds(s.log, w, x);
    ReleaseKeeps(writes, s, w, x);
    UpdateFaithful(h, start, writes, s, w, Unlock,
      if x.base.activeStep.Some? then Some(Called(x.base, x.ver + 1, x.base.activeStep.value)) else None);
  }

  lemma ResumeFaithful<C>(a: Actor, h: S.Handlers<C>, start: Start<C>, writes: Rule<C>, s: World<C>, action: Action<C>, x: Worker<C>)
    requires Faithful(h, start, writes, s) && action.w in s.workers && x == s.workers[action.w]
    requires h.registered == a.registered && Answered(h, start, s, action)
    ensures Faithful(h, start, writes, Resume(a, writes, s, action, x))
  {
    match x
    case Called(_, _, _) => CalledFaithful(h, start, writes, s, action.w, x);
    case Handling(_, _, _) => HandlingFaithful(a, h, start, writes, s, action, x);
    case Failing(_, _, _, _) => FailingFaithful(a, h, start, writes, s, action, x);
    case Unwinding(_, _, _, _, _, _) => UnwindFaithful(h, start, writes, s, action, x);
    case Swept(_, _) => SweepFaithful(h, start, writes, s, action, x);
    case Continuing(_, _) => ContinuingFaithful(h, start, writes, s, action.w, x);
    case Expired => DropFaithful(h, start, writes, s, action.w);
  }

  lemma OpenFaithful<C>(h: S.Handlers<C>, start: Start<C>, writes: Rule<C>, s: World<C>, action: Action<C>, matched: bool)
    requires Faithful(h, start, writes, s)
    ensures Faithful(h, start, writes, Open(s, action, matched))
  {
    OpenKeeps(writes, s, action, matched);
    DropFaithful(h, start, writes, s, action.w);
    var after := Open(s, action, matched);
    if after != Drop(s, action.w) { ContinueFaithful(h, start, writes, s, action.w, after.workers[action.w]); }
  }

  lemma PerformFaithful<C>(a: Actor, h: S.Handlers<C>, start: Start<C>, writes: Rule<C>, s: World<C>, action: Action<C>)
    requires Faithful(h, start, writes, s) && h.registered == a.registered && Answered(h, start, s, action)
    ensures Faithful(h, start, writes, Perform(a, writes, s, action))
  {
    if action.GetTransaction? || action.QueryStuck? || action.QueryExpired? {
      OpenFaithful(h, start, writes, s, action, action.GetTransaction? && s.tx.Some? && Matched(a, s.tx.value.row.state, action.event));
    } else if action.w in s.workers {
      ResumeFaithful(a, h, start, writes, s, action, s.workers[action.w]);
    }
  }

  /** In the whole run, every call of a compensator returns what the handlers return. */
  ghost predicate AnsweredRun<C>(a: Actor, h: S.Handlers<C>, start: Start<C>, writes: Rule<C>, s: World<C>, actions: seq<Action<C>>)
    decreases |actions|
  {
    actions == [] || (Answered(h, start, s, actions[0]) && AnsweredRun(a, h, start, writes, Perform(a, writes, s, actions[0]), actions[1..]))
  }

  lemma {:induction false} RunFaithful<C>(a: Actor, h: S.Handlers<C>, start: Start<C>, writes: Rule<C>, s: World<C>, actions: seq<Action<C>>)
    requires Faithful(h, start, writes, s) && h.registered == a.registered && AnsweredRun(a, h, start, writes, s, actions)
    ensures Faithful(h, start, writes, Run(a, writes, s, actions))
    decreases |actions|
  {
    if actions != [] {
      PerformFaithful(a, h, start, writes, s, actions[0]);
      RunFaithful(a, h, start, writes, Perform(a, writes, s, actions[0]), actions[1..]);
    }
  }

  /** Main result: in every run, an unwinding before which the last one was finished by its own worker
      carries, in the update that ends it, exactly what the compensators returned for the entries
      added since, newest first, from where it started. */
  lemma UnwindingIsWhole<C>(a: Actor, h: S.Handlers<C>, first: Row<C>, actions: seq<Action<C>>)
    requires h.registered == a.registered && AnsweredRun(a, h, Starts(a), Writes(a), Started(first), actions)
    ensures Ended(h, Starts(a), Writes(a), Run(a, Writes(a), Started(first), actions).log)
  {
    RunFaithful(a, h, Starts(a), Writes(a), Started(first), actions);
  }

  // ---- Runs in which nobody is overtaken ----

  /** Every unwinding that was followed by another update was finished by its own worker. */
  ghost predicate NoneOvertaken<C>(log: seq<Commit<C>>) {
    forall j: nat :: j + 1 < |log| && log[j].act.Compensate? ==> Finished(log, j)
  }

  ghost predicate ToldRun<C>(a: Actor, h: S.Handlers<C>, start: Start<C>, writes: Rule<C>, s: World<C>, actions: seq<Action<C>>)
    decreases |actions|
  {
    actions == [] || (Told(h, start, s, actions[0]) && ToldRun(a, h, start, writes, Perform(a, writes, s, actions[0]), actions[1..]))
  }

  lemma {:induction false} FinishedIsTimely<C>(s: World<C>, action: Action<C>, log: seq<Commit<C>>)
    requires AllPlaced(s) && s.log <= log && NoneOvertaken(log)
    ensures Timely(s, action)
  {
    if action.w in s.workers && s.workers[action.w].Unwinding? {
      var x := s.workers[action.w];
      assert Placed(s.log, action.w, x);
      var j: nat := x.ver - 1;
      assert forall k :: 0 <= k < |s.log| ==> log[k] == s.log[k];
      assert j + 1 < |log| ==> Finished(log, j);
    }
  }

  /** If nobody is overtaken, the compensators' answers are all that has to be assumed. */
  lemma {:induction false} FinishedIsAnswered<C>(a: Actor, h: S.Handlers<C>, start: Start<C>, writes: Rule<C>, s: World<C>, actions: seq<Action<C>>)
    requires Faithful(h, start, writes, s) && h.registered == a.registered && ToldRun(a, h, start, writes, s, actions)
    requires NoneOvertaken(Run(a, writes, s, actions).log)
    ensures AnsweredRun(a, h, start, writes, s, actions)
    decreases |actions|
  {
    if actions != [] {
      RunExtends(a, writes, s, actions);
      FinishedIsTimely(s, actions[0], Run(a, writes, s, actions).log);
      PerformFaithful(a, h, start, writes, s, actions[0]);
      FinishedIsAnswered(a, h, start, writes, Perform(a, writes, s, actions[0]), actions[1..]);
    }
  }
}
