/** Recoveries as runs of the protocol: what a sweep leaves when it recovers a transaction, and when a
    second sweep goes on where the first one crashed (runtime/actor.ts, executeRecoverySweep). */
module Restarts {
  import opened Records
  import opened Stores
  import opened Completion
  import opened Calls
  import opened Protocol
  import opened Saga
  import opened CallLoops
  import opened Unwindings
  import opened Gathering
  import opened Rollbacks

  // ---- The actions of a sweep ----

  /** The call of a compensator, if its key resolves, and the mark. */
  function EntryMoves<C>(h: Handlers<C>, w: nat, e: Stores.Entry<C>, ctx: C): seq<Action<C>> {
    if e.item.comp.key in h.registered then [CallNext(w, h.run(e, ctx)), MarkNext(w)] else [MarkNext(w)]
  }

  function Moves<C>(h: Handlers<C>, w: nat, es: seq<Stores.Entry<C>>, ctx: C): seq<Action<C>>
    decreases |es|
  {
    if es == [] then [] else EntryMoves(h, w, es[0], ctx) + Moves(h, w, es[1..], Saga.Compensated(h, es[0], ctx))
  }

  /** A sweep that compensates the given entries and then crashes. */
  function Partly<C>(h: Handlers<C>, w: nat, es: seq<Stores.Entry<C>>, ctx: C): seq<Action<C>> {
    [StartRecovery(w), ReadStack(w)] + Moves(h, w, es, ctx)
  }

  /** A sweep that compensates all of them and ends. */
  function Wholly<C>(h: Handlers<C>, w: nat, es: seq<Stores.Entry<C>>, ctx: C): seq<Action<C>> {
    Partly(h, w, es, ctx) + [CommitFailure(w)]
  }

  lemma {:induction false} RunAppends<C>(a: Actor, writes: Rule<C>, s: World<C>, xs: seq<Action<C>>, ys: seq<Action<C>>)
    ensures Protocol.Run(a, writes, s, xs + ys) == Protocol.Run(a, writes, Protocol.Run(a, writes, s, xs), ys)
    decreases |xs|
  {
    if xs == [] {
      assert xs + ys == ys;
    } else {
      assert (xs + ys)[0] == xs[0] && (xs + ys)[1..] == xs[1..] + ys;
      RunAppends(a, writes, Protocol.Perform(a, writes, s, xs[0]), xs[1..], ys);
    }
  }

  lemma {:induction false} RunOne<C>(a: Actor, writes: Rule<C>, s: World<C>, x: Action<C>)
    ensures Protocol.Run(a, writes, s, [x]) == Protocol.Perform(a, writes, s, x)
  {
    assert [x][1..] == [];
    assert Protocol.Run(a, writes, s, [x]) == Protocol.Run(a, writes, Protocol.Perform(a, writes, s, x), []);
  }

  lemma {:induction false} RunTwo<C>(a: Actor, writes: Rule<C>, s: World<C>, x: Action<C>, y: Action<C>)
    ensures Protocol.Run(a, writes, s, [x, y]) == Protocol.Perform(a, writes, Protocol.Perform(a, writes, s, x), y)
  {
    assert [x, y] == [x] + [y];
    RunAppends(a, writes, s, [x], [y]);
    RunOne(a, writes, s, x);
    RunOne(a, writes, Protocol.Perform(a, writes, s, x), y);
  }

  // ---- What they do ----

  /** A world in which worker w is unwinding, has the given results, and the entries from `lo` up to `hi`
      are left. */
  function Unwinding<C>(s: World<C>, w: nat, row: Row<C>, base: Row<C>, comps: seq<Comp<C>>, lo: nat, hi: nat, results: seq<Option<C>>): World<C> {
    s.(tx := Some(Tx(row, Between(comps, lo, hi))),
       workers := s.workers[w := Worker.Unwinding(base, base.version + 1, Sweep, Some(Uncompensated(Between(comps, lo, hi))), false, results)])
  }

  /** The runs of the protocol, for the proofs below. */
  type Running<!C> = (World<C>, seq<Action<C>>) -> World<C>

  function Runs<C>(a: Actor, writes: Rule<C>): Running<C> {
    (s, actions) => Protocol.Run(a, writes, s, actions)
  }

  ghost predicate Composes<C>(run: Running<C>, s: World<C>, xs: seq<Action<C>>, ys: seq<Action<C>>) {
    run(s, xs + ys) == run(run(s, xs), ys)
  }

  /** One entry is called and marked. */
  ghost predicate EntryStep<C>(run: Running<C>, h: Handlers<C>, s: World<C>, w: nat, row: Row<C>, base: Row<C>,
                               comps: seq<Comp<C>>, lo: nat, hi: nat, results: seq<Option<C>>, ctx: C)
    requires lo < hi <= |comps|
  {
    var e := Stores.Entry(hi, Item(comps[hi - 1], false));
    run(Unwinding(s, w, row, base, comps, lo, hi, results), EntryMoves(h, w, e, ctx))
      == Unwinding(s, w, row, base, comps, lo, hi - 1, results + [Answer(h, e, ctx)])
  }

  lemma {:induction false} BetweenFirst<C>(comps: seq<Comp<C>>, lo: nat, hi: nat)
    requires lo < hi <= |comps|
    ensures Uncompensated(Between(comps, lo, hi)) == [Stores.Entry(hi, Item(comps[hi - 1], false))] + Uncompensated(Between(comps, lo, hi - 1))
  {
    BetweenEntries(comps, lo, hi);
    BetweenEntries(comps, lo, hi - 1);
  }

  lemma {:induction false} OneEntry<C>(a: Actor, h: Handlers<C>, writes: Rule<C>, s: World<C>, w: nat, row: Row<C>, base: Row<C>,
                                       comps: seq<Comp<C>>, lo: nat, hi: nat, results: seq<Option<C>>, ctx: C)
    requires lo < hi <= |comps| && h.registered == a.registered
    ensures EntryStep(Runs(a, writes), h, s, w, row, base, comps, lo, hi, results, ctx)
  {
    var es := Uncompensated(Between(comps, lo, hi));
    BetweenFirst(comps, lo, hi);
    MarkBetween(comps, lo, hi);
    assert es[1..] == Uncompensated(Between(comps, lo, hi - 1));
    MovesOne(a, h, writes, Unwinding(s, w, row, base, comps, lo, hi, results), w, es, ctx);
  }

  lemma {:induction false} MovesOne<C>(a: Actor, h: Handlers<C>, writes: Rule<C>, s: World<C>, w: nat, es: seq<Stores.Entry<C>>, ctx: C)
    requires w in s.workers && s.workers[w].Unwinding? && s.workers[w].todo == Some(es) && es != [] && !s.workers[w].called
    requires h.registered == a.registered && s.tx.Some?
    ensures Protocol.Run(a, writes, s, EntryMoves(h, w, es[0], ctx))
      == s.(tx := Some(MarkTx(s.tx.value, es[0].stepSeq)),
            workers := s.workers[w := s.workers[w].(todo := Some(es[1..]), results := s.workers[w].results + [Answer(h, es[0], ctx)])])
  {
    if es[0].item.comp.key in h.registered {
      RunTwo(a, writes, s, CallNext(w, h.run(es[0], ctx)), MarkNext(w));
      MarkAfterCall(a, writes, s, w, es, h.run(es[0], ctx));
    } else {
      RunOne(a, writes, s, MarkNext(w));
      MarkUnknown(a, writes, s, w, es);
    }
  }

  lemma {:induction false} MarkAfterCall<C>(a: Actor, writes: Rule<C>, s: World<C>, w: nat, es: seq<Stores.Entry<C>>, result: Option<C>)
    requires w in s.workers && s.workers[w].Unwinding? && s.workers[w].todo == Some(es) && es != [] && !s.workers[w].called
    requires es[0].item.comp.key in a.registered && s.tx.Some?
    ensures Protocol.Perform(a, writes, Protocol.Perform(a, writes, s, CallNext(w, result)), MarkNext(w))
      == s.(tx := Some(MarkTx(s.tx.value, es[0].stepSeq)),
            workers := s.workers[w := s.workers[w].(todo := Some(es[1..]), results := s.workers[w].results + [result])])
  {
    var called := Protocol.Perform(a, writes, s, CallNext(w, result));
    assert called == s.(workers := s.workers[w := s.workers[w].(called := true, results := s.workers[w].results + [result])]);
  }

  lemma {:induction false} MarkUnknown<C>(a: Actor, writes: Rule<C>, s: World<C>, w: nat, es: seq<Stores.Entry<C>>)
    requires w in s.workers && s.workers[w].Unwinding? && s.workers[w].todo == Some(es) && es != [] && !s.workers[w].called
    requires es[0].item.comp.key !in a.registered && s.tx.Some?
    ensures Protocol.Perform(a, writes, s, MarkNext(w))
      == s.(tx := Some(MarkTx(s.tx.value, es[0].stepSeq)),
            workers := s.workers[w := s.workers[w].(todo := Some(es[1..]), results := s.workers[w].results + [None])])
  {}

  /** COMPENSATING, and the stack is read. */
  ghost predicate StartStep<C>(run: Running<C>, s: World<C>, w: nat, row: Row<C>, comps: seq<Comp<C>>, lo: nat, hi: nat) {
    run(s, [StartRecovery(w), ReadStack(w)])
      == Unwinding(Noted(s, w, row), w, Patched(row, StatusOnly(Compensating)), row, comps, lo, hi, [])
  }

  /** The log with the COMPENSATING update of worker w. */
  function Noted<C>(s: World<C>, w: nat, row: Row<C>): World<C> {
    s.(log := s.log + [Commit(Patched(row, StatusOnly(Compensating)), w, row.version, Compensate)])
  }

  /** Sweep w has just found the record, with the entries from `lo` up to `hi` left. */
  ghost predicate Stuck<C>(s: World<C>, w: nat, row: Row<C>, comps: seq<Comp<C>>, lo: nat, hi: nat) {
    && s.tx == Some(Tx(row, Between(comps, lo, hi))) && w in s.workers && s.workers[w] == Swept(row, row.version)
  }

  ghost predicate HasContext<C>(s: World<C>, context: C) {
    s.tx.Some? && s.tx.value.row.context == context
  }

  /** The update that ends a sweep. */
  ghost predicate EndStep<C>(run: Running<C>, s: World<C>, w: nat, row: Row<C>, base: Row<C>, comps: seq<Comp<C>>, lo: nat, results: seq<Option<C>>) {
    row.version == base.version + 1 ==>
      HasContext(run(Unwinding(s, w, row, base, comps, lo, lo, results), [CommitFailure(w)]), Latest(results, base.context))
  }

  /** Another sweep finds the record. */
  ghost predicate StuckStep<C>(run: Running<C>, s: World<C>, v: nat, row: Row<C>) {
    s.tx.Some? && s.tx.value.row == row && row.status == Compensating ==>
      run(s, [QueryStuck(v)]) == s.(workers := s.workers[v := Swept(row, row.version)])
  }

  /** All that the results below need of runs. */
  ghost predicate SweepRun<C(!new)>(run: Running<C>, registered: set<string>) {
    && (forall s, xs, ys :: Composes(run, s, xs, ys))
    && (forall s :: run(s, []) == s)
    && (forall h: Handlers<C>, s, w, row, base, comps, lo: nat, hi, results, ctx ::
          h.registered == registered && lo < hi <= |comps| ==> EntryStep(run, h, s, w, row, base, comps, lo, hi, results, ctx))
    && (forall s, w, row, comps, lo, hi :: Stuck(s, w, row, comps, lo, hi) ==> StartStep(run, s, w, row, comps, lo, hi))
    && (forall s, w, row, base, comps, lo: nat, results :: lo <= |comps| ==> EndStep(run, s, w, row, base, comps, lo, results))
    && (forall s, v, row :: StuckStep(run, s, v, row))
  }

  /** How updates of a sweep are computed. */
  ghost predicate SweepRule<C(!new)>(writes: Rule<C>) {
    && (forall base :: writes(base, Compensate) == Some(Change(StatusOnly(Compensating), [])))
    && (forall base, results :: RecoverRule(writes(base, Recover(results)), Latest(results, base.context)))
  }

  ghost predicate RecoverRule<C>(change: Option<Change<C>>, context: C) {
    change.Some? && change.value.patch.context == Some(context)
  }

  lemma {:induction false} SweepStarts<C>(a: Actor, writes: Rule<C>, s: World<C>, w: nat, row: Row<C>, comps: seq<Comp<C>>, lo: nat, hi: nat)
    requires writes(row, Compensate) == Some(Change(StatusOnly(Compensating), [])) && Stuck(s, w, row, comps, lo, hi)
    ensures StartStep(Runs(a, writes), s, w, row, comps, lo, hi)
  {
    RunTwo(a, writes, s, StartRecovery(w), ReadStack(w));
    assert Between(comps, lo, hi) + Stores.Pending<C>([]) == Between(comps, lo, hi);
    InterruptRuns(a, writes, s, w, row, comps, lo, hi);
  }

  lemma {:induction false} InterruptRuns<C>(a: Actor, writes: Rule<C>, s: World<C>, w: nat, row: Row<C>, comps: seq<Comp<C>>, lo: nat, hi: nat)
    requires writes(row, Compensate) == Some(Change(StatusOnly(Compensating), [])) && Stuck(s, w, row, comps, lo, hi)
    requires Between(comps, lo, hi) + Stores.Pending<C>([]) == Between(comps, lo, hi)
    ensures Protocol.Perform(a, writes, s, StartRecovery(w))
      == Noted(s, w, row).(tx := Some(Tx(Patched(row, StatusOnly(Compensating)), Between(comps, lo, hi))),
                                  workers := s.workers[w := Worker.Unwinding(row, row.version + 1, Sweep, None, false, [])])
  {}

  lemma {:induction false} SweepEnds<C>(a: Actor, writes: Rule<C>, s: World<C>, w: nat, row: Row<C>, base: Row<C>,
                                        comps: seq<Comp<C>>, lo: nat, results: seq<Option<C>>)
    requires RecoverRule(writes(base, Recover(results)), Latest(results, base.context)) && lo <= |comps|
    ensures EndStep(Runs(a, writes), s, w, row, base, comps, lo, results)
  {
    BetweenEntries(comps, lo, lo);
    RunOne(a, writes, Unwinding(s, w, row, base, comps, lo, lo, results), CommitFailure(w));
  }

  lemma {:induction false} StuckRuns<C>(a: Actor, writes: Rule<C>, s: World<C>, v: nat, row: Row<C>)
    ensures StuckStep(Runs(a, writes), s, v, row)
  {
    RunOne(a, writes, s, QueryStuck(v));
  }

  lemma {:induction false} RunsSweep<C(!new)>(a: Actor, writes: Rule<C>)
    requires SweepRule(writes)
    ensures SweepRun(Runs(a, writes), a.registered)
  {
    forall s, xs, ys ensures Composes(Runs(a, writes), s, xs, ys) { RunAppends(a, writes, s, xs, ys); }
    forall h: Handlers<C>, s, w, row, base, comps, lo: nat, hi, results, ctx | h.registered == a.registered && lo < hi <= |comps|
      ensures EntryStep(Runs(a, writes), h, s, w, row, base, comps, lo, hi, results, ctx)
    {
      OneEntry(a, h, writes, s, w, row, base, comps, lo, hi, results, ctx);
    }
    forall s, w, row, comps, lo, hi | Stuck(s, w, row, comps, lo, hi) ensures StartStep(Runs(a, writes), s, w, row, comps, lo, hi) {
      assert writes(row, Compensate) == Some(Change(StatusOnly(Compensating), []));
      SweepStarts(a, writes, s, w, row, comps, lo, hi);
    }
    forall s, w, row, base, comps, lo: nat, results | lo <= |comps| ensures EndStep(Runs(a, writes), s, w, row, base, comps, lo, results) {
      assert RecoverRule(writes(base, Recover(results)), Latest(results, base.context));
      SweepEnds(a, writes, s, w, row, base, comps, lo, results);
    }
    forall s, v, row ensures StuckStep(Runs(a, writes), s, v, row) { StuckRuns(a, writes, s, v, row); }
  }

  // ---- What a whole sweep leaves ----

  /** The first n entries of those left. */
  lemma {:induction false} MovesRun<C(!new)>(run: Running<C>, h: Handlers<C>, s: World<C>, w: nat, row: Row<C>, base: Row<C>,
                                             comps: seq<Comp<C>>, lo: nat, hi: nat, n: nat, results: seq<Option<C>>, ctx: C)
    requires lo + n <= hi <= |comps| && SweepRun(run, h.registered)
    ensures var es := Uncompensated(Between(comps, lo, hi));
      && |es| == hi - lo
      && run(Unwinding(s, w, row, base, comps, lo, hi, results), Moves(h, w, es[..n], ctx))
         == Unwinding(s, w, row, base, comps, lo, hi - n, results + Results(h, es[..n], ctx))
    decreases n
  {
    var es := Uncompensated(Between(comps, lo, hi));
    BetweenEntries(comps, lo, hi);
    if n == 0 {
      assert results + [] == results && es[..0] == [];
    } else {
      var e := Stores.Entry(hi, Item(comps[hi - 1], false));
      var next := Saga.Compensated(h, e, ctx);
      BetweenFirst(comps, lo, hi);
      var rest := Uncompensated(Between(comps, lo, hi - 1))[..n - 1];
      assert es[..n] == [e] + rest && es[..n][1..] == rest;
      assert EntryStep(run, h, s, w, row, base, comps, lo, hi, results, ctx);
      MovesRun(run, h, s, w, row, base, comps, lo, hi - 1, n - 1, results + [Answer(h, e, ctx)], next);
      assert Composes(run, Unwinding(s, w, row, base, comps, lo, hi, results), EntryMoves(h, w, e, ctx), Moves(h, w, rest, next));
      Regroup(results, [Answer(h, e, ctx)], Results(h, rest, next));
    }
  }

  lemma {:induction false} PartlyRuns<C(!new)>(run: Running<C>, h: Handlers<C>, s: World<C>, w: nat, row: Row<C>,
                                               comps: seq<Comp<C>>, lo: nat, hi: nat, n: nat)
    requires SweepRun(run, h.registered) && Stuck(s, w, row, comps, lo, hi) && lo + n <= hi <= |comps|
    ensures var es := Uncompensated(Between(comps, lo, hi));
      && |es| == hi - lo
      && run(s, Partly(h, w, es[..n], row.context))
         == Unwinding(Noted(s, w, row), w, Patched(row, StatusOnly(Compensating)), row, comps, lo, hi - n, Results(h, es[..n], row.context))
  {
    BetweenEntries(comps, lo, hi);
    var es := Uncompensated(Between(comps, lo, hi));
    assert StartStep(run, s, w, row, comps, lo, hi);
    MovesRun(run, h, Noted(s, w, row), w, Patched(row, StatusOnly(Compensating)), row, comps, lo, hi, n, [], row.context);
    assert Composes(run, s, [StartRecovery(w), ReadStack(w)], Moves(h, w, es[..n], row.context));
    assert [] + Results(h, es[..n], row.context) == Results(h, es[..n], row.context);
  }

  /** A sweep that is not disturbed leaves what the compensators make of the stored context. */
  lemma {:induction false} WhollyRuns<C(!new)>(run: Running<C>, h: Handlers<C>, s: World<C>, w: nat, row: Row<C>,
                                               comps: seq<Comp<C>>, lo: nat, hi: nat)
    requires SweepRun(run, h.registered) && Stuck(s, w, row, comps, lo, hi) && lo <= hi <= |comps|
    ensures var es := Uncompensated(Between(comps, lo, hi));
      HasContext(run(s, Wholly(h, w, es, row.context)), Unwound(h, es, row.context))
  {
    BetweenEntries(comps, lo, hi);
    var es := Uncompensated(Between(comps, lo, hi));
    PartlyRuns(run, h, s, w, row, comps, lo, hi, hi - lo);
    assert es[..hi - lo] == es;
    assert EndStep(run, Noted(s, w, row), w, Patched(row, StatusOnly(Compensating)), row, comps, lo, Results(h, es, row.context));
    UnwoundIsLatest(h, es, row.context);
    assert Composes(run, s, Partly(h, w, es, row.context), [CommitFailure(w)]);
  }

  /** A sweep by w compensates n entries and crashes; a second one by v goes on. */
  function Restarted<C>(h: Handlers<C>, w: nat, v: nat, es: seq<Stores.Entry<C>>, n: nat, ctx: C): seq<Action<C>>
    requires n <= |es|
  {
    Partly(h, w, es[..n], ctx) + [QueryStuck(v)] + Wholly(h, v, es[n..], ctx)
  }

  /** The second sweep starts again from the stored context, with what the first one left to do. */
  lemma {:induction false} RestartedRuns<C(!new)>(run: Running<C>, h: Handlers<C>, s: World<C>, w: nat, v: nat, row: Row<C>,
                                                  comps: seq<Comp<C>>, lo: nat, hi: nat, n: nat, es: seq<Stores.Entry<C>>, left: seq<Stores.Entry<C>>)
    requires SweepRun(run, h.registered) && Stuck(s, w, row, comps, lo, hi) && lo + n <= hi <= |comps|
    requires es == Uncompensated(Between(comps, lo, hi)) && left == Uncompensated(Between(comps, lo, hi - n))
    ensures |es| == hi - lo && HasContext(run(s, Restarted(h, w, v, es, n, row.context)), Unwound(h, left, row.context))
  {
    BetweenEntries(comps, lo, hi);
    BetweenEntries(comps, lo, hi - n);
    assert es[n..] == left;
    var after := Patched(row, StatusOnly(Compensating));
    PartlyRuns(run, h, s, w, row, comps, lo, hi, n);
    var crashed := Unwinding(Noted(s, w, row), w, after, row, comps, lo, hi - n, Results(h, es[..n], row.context));
    var again := crashed.(workers := crashed.workers[v := Swept(after, after.version)]);
    assert StuckStep(run, crashed, v, after);
    WhollyRuns(run, h, again, v, after, comps, lo, hi - n);
    InTurn(run, h.registered, s, Partly(h, w, es[..n], row.context), crashed, [QueryStuck(v)], again, Wholly(h, v, left, row.context));
  }

  lemma {:induction false} InTurn<C(!new)>(run: Running<C>, registered: set<string>, s: World<C>, xs: seq<Action<C>>, t: World<C>,
                                           ys: seq<Action<C>>, u: World<C>, zs: seq<Action<C>>)
    requires SweepRun(run, registered) && run(s, xs) == t && run(t, ys) == u
    ensures run(s, xs + ys + zs) == run(u, zs)
  {
    assert Composes(run, s, xs, ys);
    assert Composes(run, s, xs + ys, zs);
  }

  // ---- When that restores the context ----

  /** Compensators that invert their own steps, and return `junk` in any other context. */
  ghost function Picky<C(!new)>(registered: set<string>, lo: nat, trail: seq<C>, junk: C): Handlers<C> {
    Handlers(registered,
             (e: Stores.Entry<C>, ctx: C) =>
               if lo < e.stepSeq < lo + |trail| && ctx == trail[e.stepSeq - lo] then Some(trail[e.stepSeq - lo - 1]) else Some(junk))
  }

  lemma {:induction false} JunkStays<C(!new)>(registered: set<string>, lo: nat, trail: seq<C>, junk: C, es: seq<Stores.Entry<C>>)
    requires junk !in trail && forall i :: 0 <= i < |es| ==> es[i].item.comp.key in registered
    ensures Unwound(Picky(registered, lo, trail, junk), es, junk) == junk
    decreases |es|
  {
    if es != [] { JunkStays(registered, lo, trail, junk, es[1..]); }
  }

  lemma {:induction false} PickyFails<C(!new)>(registered: set<string>, comps: seq<Comp<C>>, lo: nat, hi: nat, trail: seq<C>, stored: C, junk: C)
    requires lo <= hi <= |comps| && |trail| == |comps| - lo + 1 && junk !in trail && stored != trail[hi - lo]
    requires forall i :: lo <= i < |comps| ==> comps[i].key in registered
    ensures Unwound(Picky(registered, lo, trail, junk), Uncompensated(Between(comps, lo, hi)), stored) != trail[0]
  {
    var es := Uncompensated(Between(comps, lo, hi));
    BetweenEntries(comps, lo, hi);
    assert trail[0] in trail;
    if hi > lo { JunkStays(registered, lo, trail, junk, es[1..]); }
  }

  lemma {:induction false} RestoresIff<C(!new)>(registered: set<string>, comps: seq<Comp<C>>, lo: nat, hi: nat, trail: seq<C>, stored: C, junk: C)
    requires lo <= hi <= |comps| && |trail| == |comps| - lo + 1 && junk !in trail
    requires forall i :: lo <= i < |comps| ==> comps[i].key in registered
    ensures (forall h: Handlers<C> :: h.registered == registered && InvertsFrom(h, comps, lo, trail) ==>
               Unwound(h, Uncompensated(Between(comps, lo, hi)), stored) == trail[0])
      <==> stored == trail[hi - lo]
  {
    if stored == trail[hi - lo] {
      forall h: Handlers<C> | h.registered == registered && InvertsFrom(h, comps, lo, trail)
        ensures Unwound(h, Uncompensated(Between(comps, lo, hi)), stored) == trail[0]
      {
        BetweenEntries(comps, lo, hi);
        BetweenEntries(comps[..hi], lo, hi);
        assert Uncompensated(Between(comps, lo, hi)) == Entries(comps[..hi], lo);
        assert InvertsFrom(h, comps[..hi], lo, trail[..hi - lo + 1]);
        EntriesUnwind(h, comps[..hi], lo, trail[..hi - lo + 1]);
      }
    } else {
      assert InvertsFrom(Picky(registered, lo, trail, junk), comps, lo, trail);
      PickyFails(registered, comps, lo, hi, trail, stored, junk);
    }
  }

  // ---- Runs that a sweep recovers ----

  /** A world of a run in which the last unwinding, if any, was finished, and which sweep w has just found
      stuck. Version i is the one the last unwinding left, or the first one. */
  ghost predicate Found<C(!new)>(a: Actor, first: Row<C>, actions: seq<Action<C>>, h: Handlers<C>, s: World<C>, w: nat, i: nat) {
    && h.registered == a.registered && AnsweredRun(a, h, Starts(a), Writes(a), Started(first), actions)
    && s == Protocol.Run(a, Writes(a), Started(first), actions) && Calm(s.log)
    && s.tx.Some? && w in s.workers && s.workers[w] == Swept(s.tx.value.row, s.tx.value.row.version)
    && |s.log| > 0 && i == RestartAt(s.log, |s.log|)
  }

  ghost predicate Ready<C>(writes: Rule<C>, s: World<C>, i: nat) {
    var comps := Appended(writes, s.log, |s.log|);
    && |s.log| > 0 && Logged(writes, s.log) && Origin(s.log, i) && s.tx.Some? && s.tx.value.row == s.log[|s.log| - 1].row
    && |Appended(writes, s.log, i)| <= |comps|
    && s.tx.value.stack == Between(comps, |Appended(writes, s.log, i)|, |comps|)
  }

  lemma {:induction false} FoundIsReady<C(!new)>(a: Actor, first: Row<C>, actions: seq<Action<C>>, h: Handlers<C>, s: World<C>, w: nat, i: nat)
    requires Found(a, first, actions, h, s, w, i)
    ensures Ready(Writes(a), s, i)
  {
    RunFaithful(a, h, Starts(a), Writes(a), Started(first), actions);
    RunExtends(a, Writes(a), Started(first), actions);
    assert s.log[0] == Started(first).log[0];
    ReadyWorld(a, h, s, i);
  }

  lemma {:induction false} ReadyWorld<C>(a: Actor, h: Handlers<C>, s: World<C>, i: nat)
    requires Faithful(h, Starts(a), Writes(a), s) && Calm(s.log) && s.tx.Some? && s.log[0].act.Create? && i == RestartAt(s.log, |s.log|)
    ensures Ready(Writes(a), s, i)
  {
    PastIs(a, s.log, |s.log|);
    assert |CompsOf(s.tx.value.stack)| == |s.tx.value.stack|;
  }

  lemma {:induction false} WritesSweep<C(!new)>(a: Actor)
    ensures SweepRule<C>(Writes(a))
  {
    forall base: Row<C> ensures Writes(a)(base, Compensate) == Some(Change(StatusOnly(Compensating), [])) {}
    forall base: Row<C>, results ensures RecoverRule(Writes(a)(base, Recover(results)), Latest(results, base.context)) {
      RecoveryWrites(a, base, Recover(results));
    }
  }

  /** All entries have compensators that resolve. */
  predicate Known<C>(registered: set<string>, s: World<C>)
    requires s.tx.Some?
  {
    forall j :: 0 <= j < |s.tx.value.stack| ==> s.tx.value.stack[j].comp.key in registered
  }

  /** The entries that are left after the newest n of those since version i. */
  ghost function Left<C>(writes: Rule<C>, log: seq<Commit<C>>, i: nat, n: nat): seq<Stores.Entry<C>>
    requires i <= |log|
  {
    var comps := Appended(writes, log, |log|);
    Uncompensated(Between(comps, |Appended(writes, log, i)|, if n <= |comps| then |comps| - n else 0))
  }

  /** Main result on sweeps: in a run that a sweep has found stuck, the sweep leaves what the compensators
      make of the stored context, entry by entry. */
  lemma {:induction false} SweepLeaves<C(!new)>(a: Actor, first: Row<C>, actions: seq<Action<C>>, g: Handlers<C>, s: World<C>,
                                                w: nat, i: nat, h: Handlers<C>)
    requires Found(a, first, actions, g, s, w, i) && h.registered == a.registered
    ensures HasContext(Runs(a, Writes(a))(s, Wholly(h, w, Uncompensated(s.tx.value.stack), s.tx.value.row.context)),
                   Unwound(h, Left(Writes(a), s.log, i, 0), s.tx.value.row.context))
  {
    FoundIsReady(a, first, actions, g, s, w, i);
    WritesSweep<C>(a);
    RunsSweep<C>(a, Writes(a));
    var comps := Appended(Writes(a), s.log, |s.log|);
    WhollyRuns(Runs(a, Writes(a)), h, s, w, s.tx.value.row, comps, |Appended(Writes(a), s.log, i)|, |comps|);
  }

  /** Main result on restarts: when it crashes after n entries, a second sweep starts again from the
      stored context, with the entries that the first one left. */
  lemma {:induction false} RestartLeaves<C(!new)>(a: Actor, first: Row<C>, actions: seq<Action<C>>, g: Handlers<C>, s: World<C>,
                                                  w: nat, v: nat, i: nat, n: nat, h: Handlers<C>)
    requires Found(a, first, actions, g, s, w, i) && h.registered == a.registered && n <= |Left(Writes(a), s.log, i, 0)|
    ensures n <= |Uncompensated(s.tx.value.stack)|
    ensures HasContext(Runs(a, Writes(a))(s, Restarted(h, w, v, Uncompensated(s.tx.value.stack), n, s.tx.value.row.context)),
                   Unwound(h, Left(Writes(a), s.log, i, n), s.tx.value.row.context))
  {
    FoundIsReady(a, first, actions, g, s, w, i);
    WritesSweep<C>(a);
    RunsSweep<C>(a, Writes(a));
    ReadyRestarts(Runs(a, Writes(a)), Writes(a), s, w, v, i, n, h);
  }

  lemma {:induction false} ReadyRestarts<C(!new)>(run: Running<C>, writes: Rule<C>, s: World<C>, w: nat, v: nat, i: nat, n: nat, h: Handlers<C>)
    requires SweepRun(run, h.registered) && Ready(writes, s, i) && n <= |Left(writes, s.log, i, 0)|
    requires w in s.workers && s.workers[w] == Swept(s.tx.value.row, s.tx.value.row.version)
    ensures n <= |Uncompensated(s.tx.value.stack)|
    ensures HasContext(run(s, Restarted(h, w, v, Uncompensated(s.tx.value.stack), n, s.tx.value.row.context)),
                   Unwound(h, Left(writes, s.log, i, n), s.tx.value.row.context))
  {
    var comps := Appended(writes, s.log, |s.log|);
    var lo := |Appended(writes, s.log, i)|;
    BetweenEntries(comps, lo, |comps|);
    RestartedRuns(run, h, s, w, v, s.tx.value.row, comps, lo, |comps|, n, Uncompensated(s.tx.value.stack), Left(writes, s.log, i, n));
  }

  /** Whatever compensators invert their own steps along the trail, unwinding the given entries from
      `stored` ends in its first context. */
  ghost predicate Restores<C(!new)>(registered: set<string>, writes: Rule<C>, log: seq<Commit<C>>, i: nat, trail: seq<C>,
                                    es: seq<Stores.Entry<C>>, stored: C)
    requires i <= |log| && trail != []
  {
    forall h: Handlers<C> ::
      h.registered == registered && InvertsFrom(h, Appended(writes, log, |log|), |Appended(writes, log, i)|, trail) ==>
        Unwound(h, es, stored) == trail[0]
  }

  /** After a crash that lost n entries, that is so exactly when the stored context is the one that the
      lost sweep had reached. */
  lemma {:induction false} RestartIff<C(!new)>(a: Actor, first: Row<C>, actions: seq<Action<C>>, g: Handlers<C>, s: World<C>,
                                               w: nat, i: nat, n: nat, junk: C)
    requires Found(a, first, actions, g, s, w, i) && Forward(a, s.log, i, |s.log|)
    requires n <= |Left(Writes(a), s.log, i, 0)| && junk !in Trail(s.log, i, |s.log|) && Known(a.registered, s)
    ensures n < |Trail(s.log, i, |s.log|)|
    ensures Restores(a.registered, Writes(a), s.log, i, Trail(s.log, i, |s.log|), Left(Writes(a), s.log, i, n), s.tx.value.row.context)
      <==> s.tx.value.row.context == Trail(s.log, i, |s.log|)[|Trail(s.log, i, |s.log|)| - 1 - n]
  {
    FoundIsReady(a, first, actions, g, s, w, i);
    ReadyRestartIff(a, s, i, n, Trail(s.log, i, |s.log|), junk);
  }

  lemma {:induction false} TrailLength<C>(a: Actor, log: seq<Commit<C>>, i: nat)
    requires Logged(Writes(a), log) && Origin(log, i) && Forward(a, log, i, |log|)
    ensures |Trail(log, i, |log|)| == |Appended(Writes(a), log, |log|)| - |Appended(Writes(a), log, i)| + 1
  {
    ForwardFits(a, log, i, |log|);
  }

  lemma {:induction false} ReadyRestartIff<C(!new)>(a: Actor, s: World<C>, i: nat, n: nat, trail: seq<C>, junk: C)
    requires Ready(Writes(a), s, i) && Forward(a, s.log, i, |s.log|) && trail == Trail(s.log, i, |s.log|)
    requires n <= |Left(Writes(a), s.log, i, 0)| && junk !in trail && Known(a.registered, s)
    ensures n < |trail|
    ensures Restores(a.registered, Writes(a), s.log, i, trail, Left(Writes(a), s.log, i, n), s.tx.value.row.context)
      <==> s.tx.value.row.context == trail[|trail| - 1 - n]
  {
    TrailLength(a, s.log, i);
    ReadyIff(a.registered, Writes(a), s, i, n, trail, junk);
  }

  lemma {:induction false} ReadyIff<C(!new)>(registered: set<string>, writes: Rule<C>, s: World<C>, i: nat, n: nat, trail: seq<C>, junk: C)
    requires Ready(writes, s, i) && n <= |Left(writes, s.log, i, 0)| && Known(registered, s) && junk !in trail
    requires |trail| == |Appended(writes, s.log, |s.log|)| - |Appended(writes, s.log, i)| + 1
    ensures n < |trail|
    ensures Restores(registered, writes, s.log, i, trail, Left(writes, s.log, i, n), s.tx.value.row.context) <==> s.tx.value.row.context == trail[|trail| - 1 - n]
  {
    var comps := Appended(writes, s.log, |s.log|);
    var lo := |Appended(writes, s.log, i)|;
    BetweenEntries(comps, lo, |comps|);
    forall j | lo <= j < |comps| ensures comps[j].key in registered { assert s.tx.value.stack[j].comp == comps[j]; }
    LeftIff(registered, writes, s.log, i, n, trail, s.tx.value.row.context, junk);
  }

  lemma {:induction false} LeftIff<C(!new)>(registered: set<string>, writes: Rule<C>, log: seq<Commit<C>>, i: nat, n: nat, trail: seq<C>, stored: C, junk: C)
    requires i <= |log| && |Appended(writes, log, i)| + n <= |Appended(writes, log, |log|)| && junk !in trail
    requires |trail| == |Appended(writes, log, |log|)| - |Appended(writes, log, i)| + 1
    requires forall j :: |Appended(writes, log, i)| <= j < |Appended(writes, log, |log|)| ==>
      Appended(writes, log, |log|)[j].key in registered
    ensures Restores(registered, writes, log, i, trail, Left(writes, log, i, n), stored) <==> stored == trail[|trail| - 1 - n]
  {
    var comps := Appended(writes, log, |log|);
    RestoresIff(registered, comps, |Appended(writes, log, i)|, |comps| - n, trail, stored, junk);
  }

  /** Main result: a sweep that recovers a call which failed part way, after it stored compensations,
      starts from the stored context, not from the working one. It restores the first context, whatever
      compensators invert their own steps, exactly when the two are the same. */
  lemma {:induction false} InterruptedRecoveryIff<C(!new)>(a: Actor, first: Row<C>, actions: seq<Action<C>>, g: Handlers<C>, s: World<C>,
                                                           w: nat, i: nat, junk: C)
    requires Found(a, first, actions, g, s, w, i) && Interrupted(a, s.log, i)
    requires junk !in InterruptedTrail(s.log, i) && Known(a.registered, s)
    ensures Restores(a.registered, Writes(a), s.log, i, InterruptedTrail(s.log, i), Left(Writes(a), s.log, i, 0), s.tx.value.row.context)
      <==> s.tx.value.row.context == ReachedAt(a, s.log, |s.log|)
  {
    FoundIsReady(a, first, actions, g, s, w, i);
    InterruptedEnd(a, s.log, i);
    WholeIff(a.registered, Writes(a), s, i, InterruptedTrail(s.log, i), ReachedAt(a, s.log, |s.log|), junk);
  }

  lemma WholeIff<C(!new)>(registered: set<string>, writes: Rule<C>, s: World<C>, i: nat, trail: seq<C>, reached: C, junk: C)
    requires Ready(writes, s, i) && Known(registered, s) && junk !in trail
    requires |trail| == |Appended(writes, s.log, |s.log|)| - |Appended(writes, s.log, i)| + 1 && trail[|trail| - 1] == reached
    ensures Restores(registered, writes, s.log, i, trail, Left(writes, s.log, i, 0), s.tx.value.row.context) <==> s.tx.value.row.context == reached
  {
    ReadyIff(registered, writes, s, i, 0, trail, junk);
  }

  /** The last commit of the log stored the steps of a call that failed part way. */
  ghost predicate Interrupted<C>(a: Actor, log: seq<Commit<C>>, i: nat) {
    var j := |log| - 1;
    && 0 < i <= j && log[j].act.Append? && 1 <= log[j].base <= j && Forward(a, log, i, j)
    && PartlyDone(a, log[log[j].base - 1].row, log[j].act.event, log[j].act.attempts)
  }

  /** The contexts up to the working one of that call. */
  ghost function InterruptedTrail<C>(log: seq<Commit<C>>, i: nat): (trail: seq<C>)
    requires 0 < i < |log|
    ensures trail != [] && trail[0] == log[i - 1].row.context
  {
    Trail(log, i, |log| - 1) + StepContexts(log[|log| - 1].act)
  }

  lemma {:induction false} InterruptedFits<C>(a: Actor, log: seq<Commit<C>>, i: nat)
    requires Logged(Writes(a), log) && Origin(log, i) && Interrupted(a, log, i)
    ensures var comps := Appended(Writes(a), log, |log|); var lo := |Appended(Writes(a), log, i)|;
      lo <= |comps| && Fits(comps[lo..], InterruptedTrail(log, i), ReachedAt(a, log, |log|))
  {
    var c := log[|log| - 1];
    var base := log[c.base - 1].row;
    var stored := InterruptedParts(a, log, i);
    var added := Added(Writes(a), log, i, |log| - 1);
    FitsAppend(added, Trail(log, i, |log| - 1), base.context, stored, StepContexts(c.act), Working(a, base, c.act.event, c.act.attempts));
    Suffix(Appended(Writes(a), log, |log|), Appended(Writes(a), log, i), added, stored);
  }

  /** The trail has a context for each entry, and ends with the working one. */
  lemma InterruptedEnd<C>(a: Actor, log: seq<Commit<C>>, i: nat)
    requires Logged(Writes(a), log) && Origin(log, i) && Interrupted(a, log, i)
    ensures var trail := InterruptedTrail(log, i);
      && |trail| == |Appended(Writes(a), log, |log|)| - |Appended(Writes(a), log, i)| + 1
      && trail[|trail| - 1] == ReachedAt(a, log, |log|)
  {
    InterruptedFits(a, log, i);
  }

  /** The entries of the whole calls before, and those of the interrupted one. */
  lemma InterruptedParts<C>(a: Actor, log: seq<Commit<C>>, i: nat) returns (stored: seq<Comp<C>>)
    requires Logged(Writes(a), log) && Origin(log, i) && Interrupted(a, log, i)
    ensures var j := |log| - 1; var c := log[j]; var base := log[c.base - 1].row;
      var working := Working(a, base, c.act.event, c.act.attempts);
      && Fits(Added(Writes(a), log, i, j), Trail(log, i, j), base.context)
      && Fits(stored, [base.context] + StepContexts(c.act), working) && ReachedAt(a, log, |log|) == working
      && Appended(Writes(a), log, |log|) == Appended(Writes(a), log, i) + Added(Writes(a), log, i, j) + stored
  {
    var j := |log| - 1;
    var c := log[j];
    StoredIsReached(a, log, i, j);
    ForwardFits(a, log, i, j);
    stored := InterruptedStep(a, log, log[c.base - 1].row);
  }

  /** What the interrupted call stored. */
  lemma InterruptedStep<C>(a: Actor, log: seq<Commit<C>>, base: Row<C>) returns (stored: seq<Comp<C>>)
    requires Logged(Writes(a), log) && |log| > 1
    requires var c := log[|log| - 1];
      c.act.Append? && 1 <= c.base < |log| && base == log[c.base - 1].row && PartlyDone(a, base, c.act.event, c.act.attempts)
    ensures var c := log[|log| - 1]; var working := Working(a, base, c.act.event, c.act.attempts);
      && Fits(stored, [base.context] + StepContexts(c.act), working) && ReachedAt(a, log, |log|) == working
      && base.context == log[|log| - 2].row.context
      && Appended(Writes(a), log, |log|) == Appended(Writes(a), log, |log| - 1) + stored
  {
    var j := |log| - 1;
    var c := log[j];
    SnapshotContext(a, log, j);
    FailureFits(a, base, c.act.event, c.act.attempts);
    WrittenContext(Writes(a), log, j);
    AppendWritesStored(a, base, c.act.event, c.act.attempts);
    stored := Stored(Writes(a), base, c.act.event, c.act.attempts);
  }
}
