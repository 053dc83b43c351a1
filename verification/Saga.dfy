/** Unwinding the compensation stack: calls and marks are separate, so a crash can fall between
    them, and a recovery sweep unwinds again (runtime/actor.ts, unwindCompensationStack). */
module Saga {
  import opened Records
  import opened Stores

  /** `registered` holds the keys that resolve to a handler; `run` is what the handlers return, None
      for `undefined`. */
  datatype Handlers<!C> = Handlers(registered: set<string>, run: (Entry<C>, C) -> Option<C>)

  function Compensated<C>(h: Handlers<C>, e: Entry<C>, ctx: C): C {
    if e.item.comp.key in h.registered then Or(h.run(e, ctx), ctx) else ctx
  }

  function Unwound<C>(h: Handlers<C>, es: seq<Entry<C>>, ctx: C): C
    decreases |es|
  {
    if es == [] then ctx else Unwound(h, es[1..], Compensated(h, es[0], ctx))
  }

  /** Marking the newest pending entry leaves the others pending. */
  lemma {:induction false} MarkNewest<C>(stack: seq<Item<C>>)
    requires Uncompensated(stack) != []
    ensures var k := Uncompensated(stack)[0].stepSeq;
      && 1 <= k <= |stack| && !stack[k - 1].done
      && Uncompensated(MarkItem(stack, k)) == Uncompensated(stack)[1..]
  {
    var n := |stack|;
    var below := stack[..n - 1];
    if stack[n - 1].done {
      assert Uncompensated(stack) == Uncompensated(below);
      MarkNewest(below);
      var k := Uncompensated(stack)[0].stepSeq;
      assert MarkItem(stack, k)[..n - 1] == MarkItem(below, k);
    } else {
      assert MarkItem(stack, n)[..n - 1] == below;
    }
  }

  function Cleared<C>(stack: seq<Item<C>>): seq<Item<C>> {
    seq(|stack|, i requires 0 <= i < |stack| => stack[i].(done := true))
  }

  lemma ClearedWhenDone<C>(stack: seq<Item<C>>, now: seq<Item<C>>)
    requires SameComps(stack, now) && Uncompensated(now) == []
    ensures now == Cleared(stack)
  {
    NothingPending(now);
  }

  ghost predicate SameComps<C>(stack: seq<Item<C>>, now: seq<Item<C>>) {
    |now| == |stack| && forall i :: 0 <= i < |now| ==> now[i].comp == stack[i].comp
  }

  lemma MarkSame<C>(stack: seq<Item<C>>, now: seq<Item<C>>, k: nat)
    requires SameComps(stack, now)
    ensures SameComps(stack, MarkItem(now, k))
  {}

  lemma Overwrite<K, V>(m: map<K, V>, k: K, v: V, w: V)
    ensures m[k := v][k := w] == m[k := w]
  {}

  lemma UnwindStep<C>(h: Handlers<C>, stack: seq<Entry<C>>, i: nat, now: seq<Item<C>>, ctx: C)
    requires i < |stack| && Uncompensated(now) == stack[i..]
    ensures Unwound(h, stack[i..], ctx) == Unwound(h, stack[i + 1..], Compensated(h, stack[i], ctx))
    ensures Uncompensated(MarkItem(now, stack[i].stepSeq)) == stack[i + 1..]
  {
    assert stack[i..][0] == stack[i] && stack[i..][1..] == stack[i + 1..];
    MarkNewest(now);
  }

  /** The body of the loop: call, then mark. */
  method CompensateOne<C(!new)>(store: SqliteStore<C>, id: string, entry: Entry<C>, ctx: C, h: Handlers<C>) returns (next: C)
    requires store.Valid() && id in store.Contents()
    modifies store
    ensures store.Valid() && next == Compensated(h, entry, ctx)
    ensures var tx := old(store.Contents())[id];
      store.Contents() == old(store.Contents())[id := tx.(stack := MarkItem(tx.stack, entry.stepSeq))]
  {
    next := ctx;
    if entry.item.comp.key in h.registered {
      var updated := h.run(entry, ctx);
      if updated.Some? { next := updated.value; }
    }
    store.MarkCompensationExecuted(id, entry.stepSeq);
  }

  /** The loop of unwindCompensationStack over one store, undisturbed. */
  method UnwindCompensationStack<C(!new)>(store: SqliteStore<C>, id: string, current: C, h: Handlers<C>)
    returns (ctx: C, count: nat)
    requires store.Valid() && id in store.Contents()
    modifies store
    ensures store.Valid()
    ensures var tx := old(store.Contents())[id];
      && ctx == Unwound(h, Uncompensated(tx.stack), current) && count == |Uncompensated(tx.stack)|
      && store.Contents() == old(store.Contents())[id := tx.(stack := Cleared(tx.stack))]
  {
    var stack := store.GetUncompensatedStack(id);
    ctx, count := current, 0;
    ghost var before := store.Contents();
    ghost var now := before[id].stack;
    while count < |stack|
      invariant 0 <= count <= |stack| && store.Valid()
      invariant Unwound(h, stack[count..], ctx) == Unwound(h, stack, current)
      invariant store.Contents() == before[id := before[id].(stack := now)]
      invariant SameComps(before[id].stack, now) && Uncompensated(now) == stack[count..]
    {
      var entry := stack[count];
      UnwindStep(h, stack, count, now, ctx);
      MarkSame(before[id].stack, now, entry.stepSeq);
      ctx := CompensateOne(store, id, entry, ctx, h);
      Overwrite(before, id, before[id].(stack := now), before[id].(stack := MarkItem(now, entry.stepSeq)));
      now := MarkItem(now, entry.stepSeq);
      count := count + 1;
    }
    ClearedWhenDone(before[id].stack, now);
  }

  // ---- Rollback ----

  /** Step i took the context from `contexts[i]` to `contexts[i + 1]`, pushed an entry, and its
      compensator takes it back. */
  ghost predicate Inverts<C>(h: Handlers<C>, stack: seq<Item<C>>, contexts: seq<C>) {
    && |contexts| == |stack| + 1
    && forall i :: 0 <= i < |stack| ==>
         !stack[i].done && Compensated(h, Entry(i + 1, stack[i]), contexts[i + 1]) == contexts[i]
  }

  /** Main result: when every committed step has a compensator that inverts it, unwinding restores
      the context from before the first step. */
  lemma {:induction false} RollbackRestores<C>(h: Handlers<C>, stack: seq<Item<C>>, contexts: seq<C>)
    requires Inverts(h, stack, contexts)
    ensures Unwound(h, Uncompensated(stack), contexts[|stack|]) == contexts[0]
  {
    var n := |stack|;
    if n > 0 {
      var init := stack[..n - 1];
      assert Inverts(h, init, contexts[..n]) by {
        assert forall i :: 0 <= i < n - 1 ==> init[i] == stack[i];
      }
      RollbackRestores(h, init, contexts[..n]);
      assert Uncompensated(stack)[1..] == Uncompensated(init);
    }
  }

  /** Each handler restores the context that its entry recorded. */
  ghost predicate Restores<C(!new)>(h: Handlers<C>, stack: seq<Item<C>>) {
    forall e: Entry<C>, ctx :: 1 <= e.stepSeq <= |stack| && e.item == stack[e.stepSeq - 1] ==>
      Compensated(h, e, ctx) == e.item.comp.before
  }

  /** Whatever the others return, the entry compensated last decides. */
  lemma {:induction false} LastDecides<C(!new)>(h: Handlers<C>, es: seq<Entry<C>>, ctx: C, last: Entry<C>, value: C)
    requires es != [] && es[|es| - 1] == last && forall c :: Compensated(h, last, c) == value
    ensures Unwound(h, es, ctx) == value
    decreases |es|
  {
    if |es| > 1 {
      assert es[1..][|es[1..]| - 1] == es[|es| - 1];
      LastDecides(h, es[1..], Compensated(h, es[0], ctx), last, value);
    } else {
      assert Unwound(h, es, ctx) == Unwound(h, es[1..], Compensated(h, es[0], ctx)) && es[1..] == [];
    }
  }

  /** A restarted unwinding starts again from the stored context and skips the marked entries. With
      snapshot-restoring handlers it still ends in the first step's context exactly when an entry
      was left to compensate, or nothing had changed: a crash after the last mark loses the
      restored context. */
  lemma RestartRestoresIff<C(!new)>(h: Handlers<C>, stack: seq<Item<C>>, marked: nat, stored: C)
    requires Restores(h, stack) && stack != [] && marked <= |stack|
    requires forall i :: 0 <= i < |stack| ==> (stack[i].done <==> i >= |stack| - marked)
    ensures Unwound(h, Uncompensated(stack), stored) == stack[0].comp.before
      <==> marked < |stack| || stored == stack[0].comp.before
  {
    NothingPending(stack);
    if marked < |stack| {
      assert !stack[0].done;
      OldestIsLast(stack);
      forall c ensures Compensated(h, Entry(1, stack[0]), c) == stack[0].comp.before {}
      LastDecides(h, Uncompensated(stack), stored, Entry(1, stack[0]), stack[0].comp.before);
    }
  }

  lemma {:induction false} OldestIsLast<C>(stack: seq<Item<C>>)
    requires stack != [] && !stack[0].done
    ensures var es := Uncompensated(stack); es != [] && es[|es| - 1] == Entry(1, stack[0])
  {
    if |stack| > 1 { OldestIsLast(stack[..|stack| - 1]); }
  }

  // ---- Crashes and restarts ----

  datatype Event = Called(k: nat) | Marked(k: nat) | Crashed

  /** One unwinder at a time: `todo` is what the current one still has to do, `called` says whether
      the first of these has been called. */
  datatype Unwinding<C> = Unwinding(stack: seq<Item<C>>, todo: Option<seq<Entry<C>>>, called: bool, events: seq<Event>)

  datatype Move = Read | Call | Mark | Crash

  function Perform<C>(registered: set<string>, s: Unwinding<C>, move: Move): Unwinding<C> {
    match move
    case Read => if s.todo.Some? then s else s.(todo := Some(Uncompensated(s.stack)))
    case Call =>
      if s.todo.None? || |s.todo.value| == 0 || s.called || s.todo.value[0].item.comp.key !in registered then s
      else s.(called := true, events := s.events + [Called(s.todo.value[0].stepSeq)])
    case Mark =>
      if s.todo.None? || |s.todo.value| == 0 || (!s.called && s.todo.value[0].item.comp.key in registered) then s
      else
        var k := s.todo.value[0].stepSeq;
        Unwinding(MarkItem(s.stack, k), Some(s.todo.value[1..]), false, s.events + [Marked(k)])
    case Crash => s.(todo := None, called := false, events := s.events + [Crashed])
  }

  function Run<C>(registered: set<string>, s: Unwinding<C>, moves: seq<Move>): Unwinding<C>
    decreases |moves|
  {
    if moves == [] then s else Run(registered, Perform(registered, s, moves[0]), moves[1..])
  }

  ghost predicate CrashAfter(events: seq<Event>, i: nat) {
    exists c :: i < c < |events| && events[c] == Crashed
  }

  predicate DoneAt<C>(stack: seq<Item<C>>, k: nat) {
    1 <= k <= |stack| && stack[k - 1].done
  }

  /** Calls never go up again. */
  ghost predicate Downward(events: seq<Event>) {
    forall i, j :: 0 <= i < j < |events| && events[i].Called? && events[j].Called? ==> events[i].k >= events[j].k
  }

  /** A second call of an entry means a crash in between, and that it was not marked before. */
  ghost predicate RepeatedOnlyByCrash(events: seq<Event>) {
    forall i, j :: 0 <= i < j < |events| && events[i].Called? && events[j] == events[i] ==>
      CutOff(events, i, j)
  }

  /** Every call made so far is at or above what is still pending. */
  ghost predicate AbovePending<C>(events: seq<Event>, pending: seq<Entry<C>>) {
    forall i, j :: 0 <= i < |events| && events[i].Called? && 0 <= j < |pending| ==> events[i].k >= pending[j].stepSeq
  }

  /** A call that was neither marked nor cut off by a crash is the current one. */
  ghost predicate OneOpenCall<C>(events: seq<Event>, stack: seq<Item<C>>, current: Option<nat>) {
    forall i :: 0 <= i < |events| && events[i].Called? && !DoneAt(stack, events[i].k) && !CrashAfter(events, i) ==>
      current == Some(events[i].k)
  }

  function Current<C>(s: Unwinding<C>): Option<nat> {
    if s.called && s.todo.Some? && |s.todo.value| > 0 then Some(s.todo.value[0].stepSeq) else None
  }

  ghost predicate Focused<C>(s: Unwinding<C>) {
    && (s.todo.Some? ==> s.todo.value == Uncompensated(s.stack))
    && (s.called ==> s.todo.Some? && s.todo.value != [] && Called(s.todo.value[0].stepSeq) in s.events)
  }

  /** Exactly the entries marked in this history were compensated since `start`, each after a call
      if it has a handler. */
  ghost predicate AccountedAt<C>(start: seq<Item<C>>, registered: set<string>, stack: seq<Item<C>>, events: seq<Event>, k: nat)
    requires |stack| == |start| && 1 <= k <= |start|
  {
    && stack[k - 1].comp == start[k - 1].comp
    && (DoneAt(stack, k) <==> DoneAt(start, k) || Marked(k) in events)
    && (Marked(k) in events && start[k - 1].comp.key in registered ==> Called(k) in events)
  }

  ghost predicate Accounted<C>(start: seq<Item<C>>, registered: set<string>, stack: seq<Item<C>>, events: seq<Event>) {
    |stack| == |start| && forall k :: 1 <= k <= |start| ==> AccountedAt(start, registered, stack, events, k)
  }

  ghost predicate Orderly<C>(start: seq<Item<C>>, registered: set<string>, s: Unwinding<C>) {
    && Focused(s) && AbovePending(s.events, Uncompensated(s.stack)) && OneOpenCall(s.events, s.stack, Current(s))
    && Accounted(start, registered, s.stack, s.events)
    && Downward(s.events) && RepeatedOnlyByCrash(s.events)
  }

  lemma CrashStays(events: seq<Event>, x: Event, i: nat)
    requires i < |events|
    ensures CrashAfter(events, i) ==> CrashAfter(events + [x], i)
    ensures x != Crashed ==> (CrashAfter(events, i) <==> CrashAfter(events + [x], i))
  {
    var after := events + [x];
    if c :| i < c < |events| && events[c] == Crashed { assert after[c] == Crashed; }
    if x != Crashed && CrashAfter(after, i) {
      var c :| i < c < |after| && after[c] == Crashed;
      assert events[c] == Crashed;
    }
  }

  /** The condition of RepeatedOnlyByCrash for one pair of calls. */
  ghost predicate CutOff(events: seq<Event>, i: nat, j: nat)
    requires i < j < |events| && events[i].Called?
  {
    && (exists c :: i < c < j && events[c] == Crashed)
    && Marked(events[i].k) !in events[..j]
  }

  lemma CutOffStays(events: seq<Event>, x: Event, i: nat, j: nat)
    requires i < j < |events| && events[i].Called? && CutOff(events, i, j)
    ensures CutOff(events + [x], i, j)
  {
    var after := events + [x];
    assert after[..j] == events[..j];
    var c :| i < c < j && events[c] == Crashed;
    assert after[c] == Crashed;
  }

  lemma OtherEvent(events: seq<Event>, x: Event)
    requires !x.Called? && Downward(events) && RepeatedOnlyByCrash(events)
    ensures Downward(events + [x]) && RepeatedOnlyByCrash(events + [x])
  {
    var after := events + [x];
    forall i, j | 0 <= i < j < |after| && after[i].Called? && after[j] == after[i] ensures CutOff(after, i, j) {
      assert CutOff(events, i, j);
      CutOffStays(events, x, i, j);
    }
  }

  lemma CallEvent<C>(events: seq<Event>, stack: seq<Item<C>>, k: nat)
    requires Downward(events) && RepeatedOnlyByCrash(events)
    requires Uncompensated(stack) != [] && Uncompensated(stack)[0].stepSeq == k
    requires AbovePending(events, Uncompensated(stack)) && OneOpenCall(events, stack, None)
    requires Marked(k) !in events
    ensures Downward(events + [Called(k)]) && RepeatedOnlyByCrash(events + [Called(k)])
  {
    var after := events + [Called(k)];
    var n := |events|;
    MarkNewest(stack);
    forall i, j | 0 <= i < j < |after| && after[i].Called? && after[j] == after[i] ensures CutOff(after, i, j) {
      if j < n {
        assert CutOff(events, i, j);
        CutOffStays(events, Called(k), i, j);
      } else {
        assert after[..j] == events;
        assert CrashAfter(events, i);
        var c :| i < c < n && events[c] == Crashed;
        assert after[c] == Crashed;
      }
    }
  }

  lemma CallOpens<C>(events: seq<Event>, stack: seq<Item<C>>, k: nat)
    requires OneOpenCall(events, stack, None)
    ensures OneOpenCall(events + [Called(k)], stack, Some(k))
  {
    var after := events + [Called(k)];
    forall i | 0 <= i < |after| && after[i].Called? && !DoneAt(stack, after[i].k) && !CrashAfter(after, i)
      ensures after[i].k == k
    {
      if i < |events| { CrashStays(events, Called(k), i); }
    }
  }

  lemma CallKeeps<C>(start: seq<Item<C>>, registered: set<string>, s: Unwinding<C>)
    requires Orderly(start, registered, s)
    requires s.todo.Some? && s.todo.value != [] && !s.called && s.todo.value[0].item.comp.key in registered
    ensures Orderly(start, registered, Perform(registered, s, Call))
  {
    var k := s.todo.value[0].stepSeq;
    MarkNewest(s.stack);
    UncompensatedAre(s.stack);
    assert AccountedAt(start, registered, s.stack, s.events, k);
    CallEvent(s.events, s.stack, k);
    CallOpens(s.events, s.stack, k);
    AboveHead(s.events, Uncompensated(s.stack));
    assert (s.events + [Called(k)])[|s.events|] == Called(k);
    CallAccounted(start, registered, s.stack, s.events, k);
  }

  lemma AboveHead<C>(events: seq<Event>, pending: seq<Entry<C>>)
    requires pending != [] && AbovePending(events, pending) && NewestFirst(pending)
    ensures AbovePending(events + [Called(pending[0].stepSeq)], pending)
  {}

  lemma CallAccounted<C>(start: seq<Item<C>>, registered: set<string>, stack: seq<Item<C>>, events: seq<Event>, k: nat)
    requires Accounted(start, registered, stack, events)
    ensures Accounted(start, registered, stack, events + [Called(k)])
  {
    forall j | 1 <= j <= |start| ensures AccountedAt(start, registered, stack, events + [Called(k)], j) {
      assert AccountedAt(start, registered, stack, events, j);
      assert Marked(j) in events + [Called(k)] <==> Marked(j) in events;
    }
  }

  lemma MarkCloses<C>(events: seq<Event>, stack: seq<Item<C>>, k: nat, current: Option<nat>)
    requires OneOpenCall(events, stack, current) && (current == None || current == Some(k)) && 1 <= k <= |stack|
    ensures OneOpenCall(events + [Marked(k)], MarkItem(stack, k), None)
  {
    var after := events + [Marked(k)];
    forall i | 0 <= i < |after| && after[i].Called? && !DoneAt(MarkItem(stack, k), after[i].k) ensures CrashAfter(after, i) {
      assert !DoneAt(stack, after[i].k) && after[i].k != k;
      CrashStays(events, Marked(k), i);
    }
  }

  lemma MarkKeeps<C>(start: seq<Item<C>>, registered: set<string>, s: Unwinding<C>)
    requires Orderly(start, registered, s)
    requires s.todo.Some? && s.todo.value != [] && (s.called || s.todo.value[0].item.comp.key !in registered)
    ensures Orderly(start, registered, Perform(registered, s, Mark))
  {
    var pending := Uncompensated(s.stack);
    var k := pending[0].stepSeq;
    MarkNewest(s.stack);
    OtherEvent(s.events, Marked(k));
    MarkCloses(s.events, s.stack, k, Current(s));
    AboveTail(s.events, pending, k);
    UncompensatedAre(s.stack);
    assert IsPending(s.stack, pending[0]);
    MarkAllAccounted(start, registered, s.stack, s.events, k);
  }

  lemma AboveTail<C>(events: seq<Event>, pending: seq<Entry<C>>, k: nat)
    requires pending != [] && AbovePending(events, pending)
    ensures AbovePending(events + [Marked(k)], pending[1..])
  {}

  lemma MarkAllAccounted<C>(start: seq<Item<C>>, registered: set<string>, stack: seq<Item<C>>, events: seq<Event>, k: nat)
    requires Accounted(start, registered, stack, events) && 1 <= k <= |start|
    requires stack[k - 1].comp.key in registered ==> Called(k) in events
    ensures Accounted(start, registered, MarkItem(stack, k), events + [Marked(k)])
  {
    forall j | 1 <= j <= |start| ensures AccountedAt(start, registered, MarkItem(stack, k), events + [Marked(k)], j) {
      assert AccountedAt(start, registered, stack, events, j);
      assert AccountedAt(start, registered, stack, events, k);
      MarkAccounted(start, registered, stack, events, j, k);
    }
  }

  lemma MarkAccounted<C>(start: seq<Item<C>>, registered: set<string>, stack: seq<Item<C>>, events: seq<Event>, j: nat, k: nat)
    requires |stack| == |start| && 1 <= j <= |start| && 1 <= k <= |start|
    requires AccountedAt(start, registered, stack, events, j) && AccountedAt(start, registered, stack, events, k)
    requires stack[k - 1].comp.key in registered ==> Called(k) in events
    ensures AccountedAt(start, registered, MarkItem(stack, k), events + [Marked(k)], j)
  {
    assert Marked(j) in events + [Marked(k)] <==> Marked(j) in events || j == k;
    assert Called(j) in events + [Marked(k)] <==> Called(j) in events;
  }

  lemma CrashKeeps<C>(start: seq<Item<C>>, registered: set<string>, s: Unwinding<C>)
    requires Orderly(start, registered, s)
    ensures Orderly(start, registered, Perform(registered, s, Crash))
  {
    var after := s.events + [Crashed];
    OtherEvent(s.events, Crashed);
    assert after[|s.events|] == Crashed;
    forall i | 0 <= i < |s.events| ensures CrashAfter(after, i) {}
    forall j | 1 <= j <= |start| ensures AccountedAt(start, registered, s.stack, after, j) {
      assert AccountedAt(start, registered, s.stack, s.events, j);
      assert Marked(j) in after <==> Marked(j) in s.events;
      assert Called(j) in after <==> Called(j) in s.events;
    }
  }

  lemma PerformKeeps<C>(start: seq<Item<C>>, registered: set<string>, s: Unwinding<C>, move: Move)
    requires Orderly(start, registered, s)
    ensures Orderly(start, registered, Perform(registered, s, move))
  {
    if Perform(registered, s, move) != s {
      match move
      case Read =>
      case Call => CallKeeps(start, registered, s);
      case Mark => MarkKeeps(start, registered, s);
      case Crash => CrashKeeps(start, registered, s);
    }
  }

  lemma {:induction false} RunKeeps<C>(start: seq<Item<C>>, registered: set<string>, s: Unwinding<C>, moves: seq<Move>)
    requires Orderly(start, registered, s)
    ensures Orderly(start, registered, Run(registered, s, moves))
    decreases |moves|
  {
    if moves != [] {
      PerformKeeps(start, registered, s, moves[0]);
      RunKeeps(start, registered, Perform(registered, s, moves[0]), moves[1..]);
    }
  }

  /** Main result, over all crashes and restarts: compensators are called in non-increasing order, a
      second call of an entry means a crash between its call and its mark, every entry compensated
      was called if it has a handler, and a finished unwinding leaves nothing uncompensated. */
  lemma EveryUnwinding<C>(start: seq<Item<C>>, registered: set<string>, moves: seq<Move>)
    ensures var s := Run(registered, Unwinding(start, None, false, []), moves);
      && Downward(s.events) && RepeatedOnlyByCrash(s.events)
      && Accounted(start, registered, s.stack, s.events)
      && (s.todo == Some([]) ==> AllDone(s.stack))
  {
    RunKeeps(start, registered, Unwinding(start, None, false, []), moves);
    NothingPending(Run(registered, Unwinding(start, None, false, []), moves).stack);
  }
}
