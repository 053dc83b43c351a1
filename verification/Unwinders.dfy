/** Recovery inside the protocol: runs in which one worker at a time unwinds and no step is added.
    They do what module Saga describes (runtime/actor.ts). */
module Unwinders {
  import opened Records
  import opened Stores
  import opened Calls
  import opened Protocol
  import S = Saga

  /** The worker acts on the first entry of its list. */
  predicate Acts<C>(a: Actor, s: World<C>, action: Action<C>) {
    && action.w in s.workers && s.workers[action.w].Unwinding?
    && s.workers[action.w].todo.Some? && |s.workers[action.w].todo.value| > 0
    && var x := s.workers[action.w];
       var known := x.todo.value[0].item.comp.key in a.registered;
       || (action.CallNext? && known && !x.called)
       || (action.MarkNext? && (x.called || !known))
  }

  predicate Reads<C>(s: World<C>, action: Action<C>) {
    action.ReadStack? && action.w in s.workers && s.workers[action.w].Unwinding? && s.workers[action.w].todo.None?
  }

  /** What the history notes: reading the stack begins a new unwinding, so the one before is over. */
  function Noted<C>(a: Actor, s: World<C>, action: Action<C>): seq<S.Event> {
    if Reads(s, action) then [S.Crashed]
    else if !Acts(a, s, action) then []
    else
      var k := s.workers[action.w].todo.value[0].stepSeq;
      if action.CallNext? then [S.Called(k)] else [S.Marked(k)]
  }

  function History<C>(a: Actor, writes: Rule<C>, s: World<C>, actions: seq<Action<C>>): seq<S.Event>
    decreases |actions|
  {
    if actions == [] then [] else Noted(a, s, actions[0]) + History(a, writes, Perform(a, writes, s, actions[0]), actions[1..])
  }

  function Unwinder<C>(s: World<C>, who: Option<nat>, action: Action<C>): Option<nat> {
    if Reads(s, action) then Some(action.w) else who
  }

  /** The worker that read the stack last. */
  function LastReader<C>(a: Actor, writes: Rule<C>, s: World<C>, who: Option<nat>, actions: seq<Action<C>>): Option<nat>
    decreases |actions|
  {
    if actions == [] then who
    else LastReader(a, writes, Perform(a, writes, s, actions[0]), Unwinder(s, who, actions[0]), actions[1..])
  }

  /** Only the worker that read the stack last goes on unwinding, no step is added to the stack, and
      the transaction is not deleted. */
  ghost predicate Solo<C>(a: Actor, writes: Rule<C>, s: World<C>, who: Option<nat>, actions: seq<Action<C>>)
    decreases |actions|
  {
    s.tx.Some? && (actions == [] || (
      var after := Perform(a, writes, s, actions[0]);
      && (Acts(a, s, actions[0]) ==> who == Some(actions[0].w))
      && after.tx.Some? && |after.tx.value.stack| == |s.tx.value.stack|
      && Solo(a, writes, after, Unwinder(s, who, actions[0]), actions[1..])))
  }

  /** The unwinding of module Saga that a world shows. */
  ghost predicate Shows<C>(s: World<C>, who: Option<nat>, u: S.Unwinding<C>) {
    && s.tx.Some? && u.stack == s.tx.value.stack
    && (who.Some? && who.value in s.workers && s.workers[who.value].Unwinding? && s.workers[who.value].todo.Some? ==>
          u.todo == s.workers[who.value].todo && u.called == s.workers[who.value].called)
  }

  function Moves<C>(a: Actor, s: World<C>, action: Action<C>): seq<S.Move> {
    if Reads(s, action) then [S.Crash, S.Read]
    else if !Acts(a, s, action) then []
    else if action.CallNext? then [S.Call] else [S.Mark]
  }

  lemma RunOne<C>(registered: set<string>, u: S.Unwinding<C>, move: S.Move)
    ensures S.Run(registered, u, [move]) == S.Perform(registered, u, move)
  {
    assert [move][1..] == [];
  }

  lemma RunTwo<C>(registered: set<string>, u: S.Unwinding<C>, m: S.Move, n: S.Move)
    ensures S.Run(registered, u, [m, n]) == S.Perform(registered, S.Perform(registered, u, m), n)
  {
    assert [m, n][1..] == [n];
    RunOne(registered, S.Perform(registered, u, m), n);
  }

  /** What every action but those on an unwinder's own list leaves alone: the stack only grows, other
      workers stay as they are, and the acting one gets no list. */
  ghost predicate Frame<C>(s: World<C>, after: World<C>, w: nat) {
    && (s.tx.Some? && after.tx.Some? ==> s.tx.value.stack <= after.tx.value.stack)
    && (forall v :: v != w ==> (v in after.workers <==> v in s.workers) && (v in s.workers ==> after.workers[v] == s.workers[v]))
    && (w in after.workers && after.workers[w].Unwinding? && after.workers[w].todo.Some? ==>
          w in s.workers && after.workers[w] == s.workers[w])
  }

  lemma UpdateFrame<C>(writes: Rule<C>, s: World<C>, w: nat, base: Row<C>, ver: nat, act: Act<C>, next: Option<Worker<C>>)
    requires next.Some? && next.value.Unwinding? ==> next.value.todo.None?
    ensures Frame(s, Update(writes, s, w, base, ver, act, next), w)
  {}

  lemma OpenFrame<C>(s: World<C>, action: Action<C>, matched: bool)
    ensures Frame(s, Open(s, action, matched), action.w)
  {}

  lemma SweepFrame<C>(writes: Rule<C>, s: World<C>, action: Action<C>, base: Row<C>, ver: nat)
    ensures Frame(s, SweepOne(writes, s, action, base, ver), action.w)
  {
    UpdateFrame(writes, s, action.w, base, ver, MarkFail, None);
    UpdateFrame(writes, s, action.w, base, ver, Compensate, Some(Unwinding(base, ver + 1, Sweep, None, false, [])));
  }

  lemma UnwindFrame<C>(a: Actor, writes: Rule<C>, s: World<C>, action: Action<C>, x: Worker<C>)
    requires action.w in s.workers && x == s.workers[action.w] && x.Unwinding? && !Reads(s, action) && !Acts(a, s, action)
    ensures Frame(s, Unwind(a.registered, writes, s, action, x.base, x.ver, x.why, x.todo, x.called, x.results), action.w)
  {
    UpdateFrame(writes, s, action.w, x.base, x.ver,
      if x.why.Sweep? then Recover(x.results) else Fail(x.why.event, x.why.attempts, x.results), None);
  }

  lemma HandlingFrame<C>(a: Actor, writes: Rule<C>, s: World<C>, action: Action<C>, x: Worker<C>)
    requires action.w in s.workers && x == s.workers[action.w] && (x.Handling? || x.Failing?)
    ensures Frame(s, Resume(a, writes, s, action, x), action.w)
  {
    if x.Failing? {
      UpdateFrame(writes, s, action.w, x.base, x.ver, Compensate,
        Some(Unwinding(x.base, x.ver + 1, Why.Step(x.event, x.attempts), None, false, [])));
      UpdateFrame(writes, s, action.w, x.base, x.ver, Fail(x.event, x.attempts, []), None);
    } else if action.CommitSuccess? {
      UpdateFrame(writes, s, action.w, x.base, x.ver, Succeed(x.event, action.attempts, action.dones), None);
    } else if action.FlushFailure? {
      UpdateFrame(writes, s, action.w, x.base, x.ver, Append(x.event, action.attempts),
        Some(Failing(x.base, x.ver + 1, x.event, action.attempts)));
    }
  }

  lemma PerformFrame<C>(a: Actor, writes: Rule<C>, s: World<C>, action: Action<C>)
    requires !Reads(s, action) && !Acts(a, s, action)
    ensures Frame(s, Perform(a, writes, s, action), action.w)
  {
    if action.GetTransaction? || action.QueryStuck? || action.QueryExpired? {
      OpenFrame(s, action, action.GetTransaction? && s.tx.Some? && Matched(a, s.tx.value.row.state, action.event));
    } else if action.w in s.workers {
      var x := s.workers[action.w];
      match x
      case Called(base, ver, event) =>
        UpdateFrame(writes, s, action.w, base, ver, Begin(event), Some(Handling(base, ver + 1, event)));
      case Handling(_, _, _) => HandlingFrame(a, writes, s, action, x);
      case Failing(_, _, _, _) => HandlingFrame(a, writes, s, action, x);
      case Unwinding(_, _, _, _, _, _) => UnwindFrame(a, writes, s, action, x);
      case Swept(base, ver) => SweepFrame(writes, s, action, base, ver);
      case Continuing(base, ver) =>
        UpdateFrame(writes, s, action.w, base, ver, Unlock,
          if base.activeStep.Some? then Some(Called(base, ver + 1, base.activeStep.value)) else None);
      case Expired =>
    }
  }

  /** One action of the protocol is what module Saga does by its moves. */
  lemma StepShows<C>(a: Actor, writes: Rule<C>, s: World<C>, who: Option<nat>, action: Action<C>, u: S.Unwinding<C>)
    requires Shows(s, who, u) && (Acts(a, s, action) ==> who == Some(action.w))
    requires var after := Perform(a, writes, s, action); after.tx.Some? && |after.tx.value.stack| == |s.tx.value.stack|
    ensures var v := S.Run(a.registered, u, Moves(a, s, action));
      && Shows(Perform(a, writes, s, action), Unwinder(s, who, action), v)
      && v.events == u.events + Noted(a, s, action)
  {
    var after := Perform(a, writes, s, action);
    if Reads(s, action) {
      RunTwo(a.registered, u, S.Crash, S.Read);
    } else if Acts(a, s, action) {
      RunOne(a.registered, u, if action.CallNext? then S.Call else S.Mark);
      ActShows(a, writes, s, who, action, u);
    } else {
      PerformFrame(a, writes, s, action);
      assert u.events + [] == u.events;
    }
  }

  lemma ActShows<C>(a: Actor, writes: Rule<C>, s: World<C>, who: Option<nat>, action: Action<C>, u: S.Unwinding<C>)
    requires Shows(s, who, u) && Acts(a, s, action) && who == Some(action.w)
    ensures var v := S.Perform(a.registered, u, if action.CallNext? then S.Call else S.Mark);
      Shows(Perform(a, writes, s, action), who, v) && v.events == u.events + Noted(a, s, action)
  {}

  lemma Joined<T>(a: seq<T>, b: seq<T>, c: seq<T>)
    ensures a + b + c == a + (b + c)
  {}

  lemma {:induction false} RunShows<C>(a: Actor, writes: Rule<C>, s: World<C>, who: Option<nat>, actions: seq<Action<C>>, u: S.Unwinding<C>, start: seq<Item<C>>)
    returns (v: S.Unwinding<C>)
    requires Solo(a, writes, s, who, actions) && Shows(s, who, u) && S.Orderly(start, a.registered, u)
    ensures Shows(Run(a, writes, s, actions), LastReader(a, writes, s, who, actions), v) && S.Orderly(start, a.registered, v)
    ensures v.events == u.events + History(a, writes, s, actions)
    decreases |actions|
  {
    if actions == [] {
      assert u.events + [] == u.events;
      v := u;
    } else {
      var after := Perform(a, writes, s, actions[0]);
      StepShows(a, writes, s, who, actions[0], u);
      S.RunKeeps(start, a.registered, u, Moves(a, s, actions[0]));
      v := RunShows(a, writes, after, Unwinder(s, who, actions[0]), actions[1..], S.Run(a.registered, u, Moves(a, s, actions[0])), start);
      Joined(u.events, Noted(a, s, actions[0]), History(a, writes, after, actions[1..]));
    }
  }

  /** Main result: in every run of the protocol in which one worker at a time unwinds and no step is
      added, compensators are called in non-increasing order over all restarts; an entry is called
      again only if an unwinding ended between its call and its mark; exactly the marked entries are
      compensated, each after a call if its handler resolves; and when a worker has nothing left to
      do, nothing is left to compensate. */
  lemma EveryRecoveryInOrder<C>(a: Actor, writes: Rule<C>, s: World<C>, actions: seq<Action<C>>)
    requires Solo(a, writes, s, None, actions)
    ensures var after := Run(a, writes, s, actions); var events := History(a, writes, s, actions);
      && after.tx.Some? && S.Downward(events) && S.RepeatedOnlyByCrash(events)
      && S.Accounted(s.tx.value.stack, a.registered, after.tx.value.stack, events)
  {
    var u := S.Unwinding(s.tx.value.stack, None, false, []);
    var v := RunShows(a, writes, s, None, actions, u, s.tx.value.stack);
    assert [] + History(a, writes, s, actions) == History(a, writes, s, actions);
  }

  /** A finished list means a finished stack. */
  lemma FinishedIsDone<C>(a: Actor, writes: Rule<C>, s: World<C>, actions: seq<Action<C>>, w: nat)
    requires Solo(a, writes, s, None, actions) && LastReader(a, writes, s, None, actions) == Some(w)
    requires var after := Run(a, writes, s, actions);
      w in after.workers && after.workers[w].Unwinding? && after.workers[w].todo == Some([])
    ensures var tx := Run(a, writes, s, actions).tx; tx.Some? && AllDone(tx.value.stack)
  {
    var u := S.Unwinding(s.tx.value.stack, None, false, []);
    var v := RunShows(a, writes, s, None, actions, u, s.tx.value.stack);
    NothingPending(v.stack);
  }
}
