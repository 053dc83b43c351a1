/** Effects that run effects and trigger transitions: the depth and revision maps of the actor
    (runtime/actor.ts, invokeSingleEffect, invokeEffects and the end of
    executeTransitionOnSnapshot). */
module EffectChains {
  import opened Records

  /** What an effect handler does, in order. `caught` says that the handler swallows the exception. */
  datatype Command =
    | RunEffect(name: string, caught: bool)
    | Transition(tx: string, event: string, caught: bool)
    | Throw

  /** A transition call up to its effects: rejected, broken off after marking the record, or
      committed with the effects to run. */
  datatype Stepped<R> = Rejected | Broken(record: R) | Committed(record: R, effects: seq<string>)

  /** How much deeper the chains of these transactions can still go. */
  function Remaining(ids: seq<string>, depth: map<string, nat>, limit: nat): nat {
    if ids == [] then 0
    else
      var d := if ids[0] in depth then depth[ids[0]] else 0;
      (if limit > d then limit - d else 0) + Remaining(ids[1..], depth, limit)
  }

  lemma {:induction false} DeeperLeavesLess(ids: seq<string>, depth: map<string, nat>, limit: nat, tx: string, d: nat)
    requires d == (if tx in depth then depth[tx] else 0) + 1 && d <= limit
    ensures Remaining(ids, depth[tx := d], limit) <= Remaining(ids, depth, limit)
    ensures tx in ids ==> Remaining(ids, depth[tx := d], limit) < Remaining(ids, depth, limit)
  {
    if ids != [] { DeeperLeavesLess(ids[1..], depth, limit, tx, d); }
  }

  function RevisionOf(revisions: map<string, nat>, tx: string): nat {
    if tx in revisions then revisions[tx] else 0
  }

  /** What a completed piece of work leaves: a transaction of `txs` whose revision has not moved
      still has the record it had. */
  ghost predicate Tracked<R(!new)>(txs: set<string>, store: map<string, R>, revisions: map<string, nat>,
                                   newStore: map<string, R>, newRevisions: map<string, nat>) {
    forall tx :: tx in txs && tx in store ==>
      && tx in newStore
      && RevisionOf(revisions, tx) <= RevisionOf(newRevisions, tx)
      && (RevisionOf(newRevisions, tx) == RevisionOf(revisions, tx) ==> newStore[tx] == store[tx])
  }

  lemma TrackedTwice<R(!new)>(txs: set<string>, more: set<string>, s: map<string, R>, r: map<string, nat>,
                              t: map<string, R>, q: map<string, nat>, u: map<string, R>, p: map<string, nat>)
    requires Tracked(txs, s, r, t, q) && Tracked(more, t, q, u, p) && txs <= more
    ensures Tracked(txs, s, r, u, p)
  {}

  // ---- What a run of effects does, as a tree of calls ----

  /** One effect or transition call, with the calls that it makes. */
  datatype Call<R> =
    | Skipped
    | TooDeep
    | Handled(shown: R, commands: Calls<R>)
    | Absent
    | Moved(effects: Calls<R>)
    | Thrown

  /** Calls in order, each with the store after it and whether it ended without throwing. */
  datatype Calls<R> = Calls(list: seq<Made<R>>)

  datatype Made<R> = Made(call: Call<R>, after: map<string, R>, done: bool)

  /** The depth limit, the registry and the transition function. */
  datatype Setting<!R> = Setting(limit: nat, strict: bool, handlers: map<string, R -> seq<Command>>, step: (R, string) -> Stepped<R>)

  function Depth(depth: map<string, nat>, tx: string): nat {
    if tx in depth then depth[tx] else 0
  }

  predicate Catches(c: Command) {
    (c.RunEffect? || c.Transition?) && c.caught
  }

  /** The store before call `i`. */
  function Before<R>(calls: Calls<R>, i: nat, s: map<string, R>): map<string, R>
    requires i <= |calls.list|
  {
    if i == 0 then s else calls.list[i - 1].after
  }

  /** Invoking the effect `name` on `tx` takes the store from `s` to `t`. An unknown name fails in strict
      mode, and a known one at the depth limit; otherwise the handler is shown the record and its
      commands run one level deeper. `exact` says that the record shown is the stored one. */
  ghost predicate EffectRan<R(!new)>(g: Setting<R>, exact: bool, call: Call<R>, tx: string, name: string, depth: map<string, nat>,
                                     s: map<string, R>, t: map<string, R>, ok: bool)
    decreases call, 0
  {
    match call
    case Skipped => name !in g.handlers && ok == !g.strict && t == s
    case TooDeep => name in g.handlers && Depth(depth, tx) >= g.limit && !ok && t == s
    case Handled(shown, commands) =>
      && name in g.handlers && Depth(depth, tx) < g.limit && tx in s && (exact ==> shown == s[tx])
      && CommandsRan(g, exact, commands, tx, g.handlers[name](shown), depth[tx := Depth(depth, tx) + 1], s, t, ok)
    case _ => false
  }

  ghost predicate CommandRan<R(!new)>(g: Setting<R>, exact: bool, call: Call<R>, tx: string, command: Command, depth: map<string, nat>,
                                      s: map<string, R>, t: map<string, R>, done: bool)
    decreases call, 1
  {
    match command
    case RunEffect(name, _) => EffectRan(g, exact, call, tx, name, depth, s, t, done)
    case Transition(other, event, _) => TransitionRan(g, exact, call, other, event, depth, s, t, done)
    case Throw => call.Thrown? && t == s && !done
  }

  /** The calls are those of the first commands, in order. */
  ghost predicate CommandsBegun<R(!new)>(g: Setting<R>, exact: bool, calls: Calls<R>, tx: string, commands: seq<Command>,
                                         depth: map<string, nat>, s: map<string, R>)
    decreases calls, 0
  {
    && |calls.list| <= |commands|
    && (forall i {:trigger Before(calls, i, s)} :: 0 <= i < |calls.list| ==>
        CommandRan(g, exact, calls.list[i].call, tx, commands[i], depth, Before(calls, i, s), calls.list[i].after, calls.list[i].done))
  }

  /** The commands of a handler run in order: all of them when it ends well, otherwise those up to the
      first failure that is not caught. */
  ghost predicate CommandsRan<R(!new)>(g: Setting<R>, exact: bool, calls: Calls<R>, tx: string, commands: seq<Command>,
                                       depth: map<string, nat>, s: map<string, R>, t: map<string, R>, ok: bool)
    decreases calls, 1
  {
    && CommandsBegun(g, exact, calls, tx, commands, depth, s) && t == Before(calls, |calls.list|, s)
    && Stopped(calls, |commands|, ok, i => 0 <= i < |commands| && Catches(commands[i]))
  }

  /** Every call but the last goes on to the next one, and the last does when all `n` are made. */
  ghost predicate Stopped<R>(calls: Calls<R>, n: nat, ok: bool, catches: int -> bool) {
    && (forall i {:trigger calls.list[i]} :: 0 <= i < |calls.list| - 1 ==> calls.list[i].done || catches(i))
    && (if ok then |calls.list| == n && (n > 0 ==> calls.list[n - 1].done || catches(n - 1))
        else calls.list != [] && !calls.list[|calls.list| - 1].done && !catches(|calls.list| - 1))
  }

  /** The effects of a commit run in order: all of them, or those up to the first failure. */
  ghost predicate EffectsRan<R(!new)>(g: Setting<R>, exact: bool, calls: Calls<R>, tx: string, effects: seq<string>,
                                      depth: map<string, nat>, s: map<string, R>, t: map<string, R>, ok: bool)
    decreases calls, 1
  {
    && EffectsBegun(g, exact, calls, tx, effects, depth, s) && t == Before(calls, |calls.list|, s)
    && Stopped(calls, |effects|, ok, i => false)
  }

  ghost predicate EffectsBegun<R(!new)>(g: Setting<R>, exact: bool, calls: Calls<R>, tx: string, effects: seq<string>,
                                        depth: map<string, nat>, s: map<string, R>)
    decreases calls, 0
  {
    && |calls.list| <= |effects|
    && (forall i {:trigger Before(calls, i, s)} :: 0 <= i < |calls.list| ==>
        EffectRan(g, exact, calls.list[i].call, tx, effects[i], depth, Before(calls, i, s), calls.list[i].after, calls.list[i].done))
  }

  /** A transition steps the stored record. When it commits, its effects run, and it is done when they
      are; a refused one changes nothing, and one that breaks off leaves the record it has marked. */
  ghost predicate TransitionRan<R(!new)>(g: Setting<R>, exact: bool, call: Call<R>, tx: string, event: string, depth: map<string, nat>,
                                         s: map<string, R>, t: map<string, R>, done: bool)
    decreases call, 0
  {
    match call
    case Absent => tx !in s && t == s && !done
    case Moved(effects) =>
      && tx in s
      && (match g.step(s[tx], event)
          case Rejected => effects.list == [] && t == s && !done
          case Broken(record) => effects.list == [] && t == s[tx := record] && !done
          case Committed(record, names) => EffectsRan(g, exact, effects, tx, names, depth, s[tx := record], t, done))
    case _ => false
  }

  // ---- Once a record shown need not be the stored one, less is claimed ----

  lemma {:induction false} CommandLess<R(!new)>(g: Setting<R>, exact: bool, call: Call<R>, tx: string, command: Command, depth: map<string, nat>,
                                                s: map<string, R>, t: map<string, R>, done: bool)
    requires CommandRan(g, exact, call, tx, command, depth, s, t, done)
    ensures CommandRan(g, false, call, tx, command, depth, s, t, done)
    decreases call, 1
  {
    match command
    case RunEffect(name, _) => EffectLess(g, exact, call, tx, name, depth, s, t, done);
    case Transition(other, event, _) => TransitionLess(g, exact, call, other, event, depth, s, t, done);
    case Throw =>
  }

  lemma {:induction false} EffectLess<R(!new)>(g: Setting<R>, exact: bool, call: Call<R>, tx: string, name: string, depth: map<string, nat>,
                                               s: map<string, R>, t: map<string, R>, ok: bool)
    requires EffectRan(g, exact, call, tx, name, depth, s, t, ok)
    ensures EffectRan(g, false, call, tx, name, depth, s, t, ok)
    decreases call, 0
  {
    match call
    case Handled(shown, commands) =>
      CommandsLess(g, exact, commands, tx, g.handlers[name](shown), depth[tx := Depth(depth, tx) + 1], s);
    case _ =>
  }

  lemma {:induction false} TransitionLess<R(!new)>(g: Setting<R>, exact: bool, call: Call<R>, tx: string, event: string, depth: map<string, nat>,
                                                   s: map<string, R>, t: map<string, R>, done: bool)
    requires TransitionRan(g, exact, call, tx, event, depth, s, t, done)
    ensures TransitionRan(g, false, call, tx, event, depth, s, t, done)
    decreases call, 0
  {
    if call.Moved? && g.step(s[tx], event).Committed? {
      var next := g.step(s[tx], event);
      EffectsLess(g, exact, call.effects, tx, next.effects, depth, s[tx := next.record]);
    }
  }

  lemma {:induction false} CommandsLess<R(!new)>(g: Setting<R>, exact: bool, calls: Calls<R>, tx: string, commands: seq<Command>,
                                                 depth: map<string, nat>, s: map<string, R>)
    requires CommandsBegun(g, exact, calls, tx, commands, depth, s)
    ensures CommandsBegun(g, false, calls, tx, commands, depth, s)
    decreases calls
  {
    forall i | 0 <= i < |calls.list|
      ensures CommandRan(g, false, calls.list[i].call, tx, commands[i], depth, Before(calls, i, s), calls.list[i].after, calls.list[i].done)
    {
      CommandLess(g, exact, calls.list[i].call, tx, commands[i], depth, Before(calls, i, s), calls.list[i].after, calls.list[i].done);
    }
  }

  lemma {:induction false} EffectsLess<R(!new)>(g: Setting<R>, exact: bool, calls: Calls<R>, tx: string, effects: seq<string>,
                                                depth: map<string, nat>, s: map<string, R>)
    requires EffectsBegun(g, exact, calls, tx, effects, depth, s)
    ensures EffectsBegun(g, false, calls, tx, effects, depth, s)
    decreases calls
  {
    forall i | 0 <= i < |calls.list|
      ensures EffectRan(g, false, calls.list[i].call, tx, effects[i], depth, Before(calls, i, s), calls.list[i].after, calls.list[i].done)
    {
      EffectLess(g, exact, calls.list[i].call, tx, effects[i], depth, Before(calls, i, s), calls.list[i].after, calls.list[i].done);
    }
  }

  // ---- One more call ----

  function And<R>(calls: Calls<R>, last: Made<R>): Calls<R> {
    Calls(calls.list + [last])
  }

  /** What holds of every call so far, and of the next one after them, holds of all. */
  lemma {:induction false} Grow<R>(calls: Calls<R>, s: map<string, R>, last: Made<R>, ran: (int, Made<R>, map<string, R>) -> bool)
    requires forall i {:trigger Before(calls, i, s)} :: 0 <= i < |calls.list| ==> ran(i, calls.list[i], Before(calls, i, s))
    requires ran(|calls.list|, last, Before(calls, |calls.list|, s))
    ensures forall i {:trigger Before(And(calls, last), i, s)} :: 0 <= i <= |calls.list| ==> ran(i, And(calls, last).list[i], Before(And(calls, last), i, s))
  {
    var more := And(calls, last);
    forall i | 0 <= i <= |calls.list| ensures ran(i, more.list[i], Before(more, i, s)) {
      assert Before(more, i, s) == Before(calls, i, s);
      if i < |calls.list| { assert more.list[i] == calls.list[i]; }
    }
  }

  lemma {:induction false} CommandsGrow<R(!new)>(g: Setting<R>, exact: bool, calls: Calls<R>, tx: string, commands: seq<Command>,
                                                 depth: map<string, nat>, s: map<string, R>, last: Made<R>)
    requires CommandsBegun(g, exact, calls, tx, commands, depth, s) && |calls.list| < |commands|
    requires CommandRan(g, exact, last.call, tx, commands[|calls.list|], depth, Before(calls, |calls.list|, s), last.after, last.done)
    ensures CommandsBegun(g, exact, And(calls, last), tx, commands, depth, s)
  {
    Grow(calls, s, last, (i: int, x: Made<R>, b: map<string, R>) => 0 <= i < |commands| && CommandRan(g, exact, x.call, tx, commands[i], depth, b, x.after, x.done));
  }

  lemma {:induction false} EffectsGrow<R(!new)>(g: Setting<R>, exact: bool, calls: Calls<R>, tx: string, effects: seq<string>,
                                                depth: map<string, nat>, s: map<string, R>, last: Made<R>)
    requires EffectsBegun(g, exact, calls, tx, effects, depth, s) && |calls.list| < |effects|
    requires EffectRan(g, exact, last.call, tx, effects[|calls.list|], depth, Before(calls, |calls.list|, s), last.after, last.done)
    ensures EffectsBegun(g, exact, And(calls, last), tx, effects, depth, s)
  {
    Grow(calls, s, last, (i: int, x: Made<R>, b: map<string, R>) => 0 <= i < |effects| && EffectRan(g, exact, x.call, tx, effects[i], depth, b, x.after, x.done));
  }

  /** So far every command has run and gone on to the next. */
  ghost predicate CommandsGone<R(!new)>(g: Setting<R>, exact: bool, calls: Calls<R>, tx: string, commands: seq<Command>,
                                        depth: map<string, nat>, s: map<string, R>, t: map<string, R>) {
    && CommandsBegun(g, exact, calls, tx, commands, depth, s) && t == Before(calls, |calls.list|, s)
    && forall i {:trigger calls.list[i]} :: 0 <= i < |calls.list| ==> calls.list[i].done || Catches(commands[i])
  }

  /** The next command has run: either the handler goes on, or it stops here. */
  lemma {:induction false} CommandsNext<R(!new)>(g: Setting<R>, exact: bool, calls: Calls<R>, tx: string, commands: seq<Command>,
                                                 depth: map<string, nat>, s: map<string, R>, m: map<string, R>, last: Made<R>)
    requires CommandsGone(g, exact, calls, tx, commands, depth, s, m) && |calls.list| < |commands|
    requires CommandRan(g, exact, last.call, tx, commands[|calls.list|], depth, m, last.after, last.done)
    ensures last.done || Catches(commands[|calls.list|]) ==> CommandsGone(g, exact, And(calls, last), tx, commands, depth, s, last.after)
    ensures !(last.done || Catches(commands[|calls.list|])) ==> CommandsRan(g, exact, And(calls, last), tx, commands, depth, s, last.after, false)
  {
    CommandsGrow(g, exact, calls, tx, commands, depth, s, last);
    var more := And(calls, last);
    forall i | 0 <= i < |calls.list| ensures more.list[i].done || Catches(commands[i]) { assert more.list[i] == calls.list[i]; }
    assert more.list[|calls.list|] == last;
  }

  ghost predicate EffectsGone<R(!new)>(g: Setting<R>, exact: bool, calls: Calls<R>, tx: string, effects: seq<string>,
                                       depth: map<string, nat>, s: map<string, R>, t: map<string, R>) {
    && EffectsBegun(g, exact, calls, tx, effects, depth, s) && t == Before(calls, |calls.list|, s)
    && forall i {:trigger calls.list[i]} :: 0 <= i < |calls.list| ==> calls.list[i].done
  }

  lemma {:induction false} EffectsNext<R(!new)>(g: Setting<R>, exact: bool, calls: Calls<R>, tx: string, effects: seq<string>,
                                                depth: map<string, nat>, s: map<string, R>, m: map<string, R>, last: Made<R>)
    requires EffectsGone(g, exact, calls, tx, effects, depth, s, m) && |calls.list| < |effects|
    requires EffectRan(g, exact, last.call, tx, effects[|calls.list|], depth, m, last.after, last.done)
    ensures last.done ==> EffectsGone(g, exact, And(calls, last), tx, effects, depth, s, last.after)
    ensures !last.done ==> EffectsRan(g, exact, And(calls, last), tx, effects, depth, s, last.after, false)
  {
    EffectsGrow(g, exact, calls, tx, effects, depth, s, last);
    var more := And(calls, last);
    forall i | 0 <= i < |calls.list| ensures more.list[i].done { assert more.list[i] == calls.list[i]; }
    assert more.list[|calls.list|] == last;
  }

  /** The handler of a registered effect has run one level deeper. */
  lemma {:induction false} HandlerRan<R(!new)>(g: Setting<R>, exact: bool, calls: Calls<R>, tx: string, name: string, depth: map<string, nat>,
                                               inner: map<string, nat>, shown: R, s: map<string, R>, t: map<string, R>, ok: bool)
    requires name in g.handlers && Depth(depth, tx) < g.limit && tx in s && (exact ==> shown == s[tx])
    requires inner == depth[tx := Depth(depth, tx) + 1]
    requires CommandsRan(g, exact, calls, tx, g.handlers[name](shown), inner, s, t, ok)
    ensures EffectRan(g, exact, Handled(shown, calls), tx, name, depth, s, t, ok)
  {}

  class EffectRunner<R(!new)> {
    /** maxEffectChainDepth, the registry, and the transition function of the machine. */
    const limit: nat
    const strict: bool
    const handlers: map<string, R -> seq<Command>>
    const step: (R, string) -> Stepped<R>
    ghost const ids: seq<string>

    var effectChainDepthByTx: map<string, nat>
    var txTransitionRevision: map<string, nat>
    var store: map<string, R>

    /** What each handler was shown when it started, and the stored record at that moment. */
    ghost var witnessed: seq<(R, R)>

    /** A handler swallowed the exception of a call that had marked its record before it threw. */
    ghost var lapsed: bool

    /** No transaction is deeper than the limit, and none that is not in a chain has an entry. Unless
        such an exception was swallowed, every handler was shown the stored record. */
    ghost predicate Valid() reads this {
      && (forall tx :: tx in effectChainDepthByTx ==> 1 <= effectChainDepthByTx[tx] <= limit)
      && (forall tx :: tx in store ==> tx in ids)
      && (!lapsed ==> forall i :: 0 <= i < |witnessed| ==> witnessed[i].0 == witnessed[i].1)
    }

    /** No handler swallows an exception. */
    ghost predicate Quiet() {
      forall name, r, i :: name in handlers && 0 <= i < |handlers[name](r)| ==>
        var c := handlers[name](r)[i];
        (c.RunEffect? || c.Transition? ==> !c.caught)
    }

    /** No call breaks off after marking its record. */
    ghost predicate NeverBroken() {
      forall r, event :: !step(r, event).Broken?
    }

    ghost function Set(): Setting<R> {
      Setting(limit, strict, handlers, step)
    }

    function Revision(tx: string): nat reads this {
      RevisionOf(txTransitionRevision, tx)
    }

    constructor (limit: nat, strict: bool, handlers: map<string, R -> seq<Command>>, step: (R, string) -> Stepped<R>, store: map<string, R>, ghost ids: seq<string>)
      requires forall tx :: tx in store ==> tx in ids
      ensures Valid() && this.store == store && effectChainDepthByTx == map[] && txTransitionRevision == map[] && !lapsed
      ensures this.limit == limit && this.strict == strict && this.handlers == handlers && this.step == step
    {
      this.limit, this.strict, this.handlers, this.step, this.ids := limit, strict, handlers, step, ids;
      this.store, effectChainDepthByTx, txTransitionRevision, witnessed, lapsed := store, map[], map[], [], false;
    }

    /** What is swallowed stays so; nothing is when no handler swallows, or no call breaks off. */
    ghost predicate Swallowed(before: bool, torn: bool) reads this {
      && (before ==> lapsed)
      && (Quiet() || NeverBroken() ==> lapsed == before)
      && (NeverBroken() ==> !torn)
    }

    /** `ok` is false when it throws, and then `torn` says whether a call broke off. Either way the depth
        is what it was. */
    method InvokeSingleEffect(tx: string, fallback: R, name: string, baseline: nat)
      returns (ok: bool, ghost torn: bool, ghost call: Call<R>)
      requires Valid() && tx in store
      requires !lapsed ==> baseline <= Revision(tx) && (Revision(tx) == baseline ==> fallback == store[tx])
      modifies this`effectChainDepthByTx, this`txTransitionRevision, this`store, this`witnessed, this`lapsed
      ensures Valid() && effectChainDepthByTx == old(effectChainDepthByTx) && store.Keys == old(store.Keys)
      ensures !lapsed && !torn ==> Tracked(effectChainDepthByTx.Keys + {tx}, old(store), old(txTransitionRevision), store, txTransitionRevision)
      ensures Swallowed(old(lapsed), torn) && (torn ==> !ok)
      ensures EffectRan(Set(), !lapsed, call, tx, name, effectChainDepthByTx, old(store), store, ok)
      decreases Remaining(ids, effectChainDepthByTx, limit), 1, 0
    {
      if name !in handlers { return !strict, false, Skipped; }
      var nextDepth := (if tx in effectChainDepthByTx then effectChainDepthByTx[tx] else 0) + 1;
      if nextDepth > limit { return false, false, TooDeep; }
      var shown := if Revision(tx) != baseline then store[tx] else fallback;
      ghost var before := effectChainDepthByTx;
      EnterChain(tx, nextDepth, shown);
      ghost var inner := effectChainDepthByTx;
      ghost var calls;
      ok, torn, calls := RunHandler(tx, shown, name, baseline);
      call := Handled(shown, calls);
      LeaveChain(tx, before);
      HandlerRan(Set(), !lapsed, calls, tx, name, before, inner, shown, old(store), store, ok);
    }

    /** One level deeper, with the handler about to be shown this record. */
    method EnterChain(tx: string, nextDepth: nat, ghost shown: R)
      requires Valid() && tx in store && nextDepth == Depth(effectChainDepthByTx, tx) + 1 <= limit
      requires !lapsed ==> shown == store[tx]
      modifies this`effectChainDepthByTx, this`witnessed
      ensures Valid() && effectChainDepthByTx == old(effectChainDepthByTx)[tx := nextDepth]
      ensures Remaining(ids, effectChainDepthByTx, limit) < Remaining(ids, old(effectChainDepthByTx), limit)
    {
      DeeperLeavesLess(ids, effectChainDepthByTx, limit, tx, nextDepth);
      effectChainDepthByTx := effectChainDepthByTx[tx := nextDepth];
      witnessed := witnessed + [(shown, store[tx])];
    }

    /** The `finally` part: the depth is what it was before the effect. */
    method LeaveChain(tx: string, ghost before: map<string, nat>)
      requires Valid() && tx in effectChainDepthByTx
      requires effectChainDepthByTx == before[tx := if tx in before then before[tx] + 1 else 1]
      requires forall t :: t in before ==> 1 <= before[t] <= limit
      modifies this`effectChainDepthByTx
      ensures Valid() && effectChainDepthByTx == before
    {
      var remaining := (if tx in effectChainDepthByTx then effectChainDepthByTx[tx] else 1) - 1;
      if remaining <= 0 {
        effectChainDepthByTx := effectChainDepthByTx - {tx};
      } else {
        effectChainDepthByTx := effectChainDepthByTx[tx := remaining];
      }
    }

    /** What a handler does next: run an effect on the record that it was shown, trigger a transition, or
        throw. */
    method RunCommand(tx: string, shown: R, command: Command, baseline: nat)
      returns (done: bool, caught: bool, ghost torn: bool, ghost call: Call<R>)
      requires Valid() && tx in store && tx in effectChainDepthByTx
      requires !lapsed ==> baseline <= Revision(tx) && (Revision(tx) == baseline ==> shown == store[tx])
      modifies this`effectChainDepthByTx, this`txTransitionRevision, this`store, this`witnessed, this`lapsed
      ensures Valid() && effectChainDepthByTx == old(effectChainDepthByTx) && store.Keys == old(store.Keys)
      ensures !lapsed && !torn ==> Tracked(effectChainDepthByTx.Keys, old(store), old(txTransitionRevision), store, txTransitionRevision)
      ensures Swallowed(old(lapsed), torn) && (torn ==> !done)
      ensures CommandRan(Set(), !lapsed, call, tx, command, effectChainDepthByTx, old(store), store, done)
      ensures caught == Catches(command)
      decreases Remaining(ids, effectChainDepthByTx, limit), 3, 1
    {
      done, caught, torn, call := false, false, false, Thrown;
      match command {
        case RunEffect(inner, c) =>
          done, torn, call := InvokeSingleEffect(tx, shown, inner, baseline);
          caught := c;
        case Transition(other, event, c) =>
          var result;
          result, torn, call := Transition(other, event);
          done, caught := result.Some?, c;
        case Throw =>
      }
    }

    /** The handler runs inside the chain, and is shown the stored record. */
    method RunHandler(tx: string, shown: R, name: string, baseline: nat)
      returns (ok: bool, ghost torn: bool, ghost calls: Calls<R>)
      requires Valid() && tx in store && tx in effectChainDepthByTx && name in handlers
      requires !lapsed ==> baseline <= Revision(tx) && shown == store[tx]
      modifies this`effectChainDepthByTx, this`txTransitionRevision, this`store, this`witnessed, this`lapsed
      ensures Valid() && effectChainDepthByTx == old(effectChainDepthByTx) && store.Keys == old(store.Keys)
      ensures !lapsed && !torn ==> Tracked(effectChainDepthByTx.Keys, old(store), old(txTransitionRevision), store, txTransitionRevision)
      ensures Swallowed(old(lapsed), torn) && (torn ==> !ok)
      ensures CommandsRan(Set(), !lapsed, calls, tx, handlers[name](shown), effectChainDepthByTx, old(store), store, ok)
      decreases Remaining(ids, effectChainDepthByTx, limit), 4, 0
    {
      var commands := handlers[name](shown);
      calls := Calls([]);
      for i := 0 to |commands|
        invariant Valid() && effectChainDepthByTx == old(effectChainDepthByTx) && store.Keys == old(store.Keys)
        invariant Swallowed(old(lapsed), false)
        invariant !lapsed ==> Tracked(effectChainDepthByTx.Keys, old(store), old(txTransitionRevision), store, txTransitionRevision)
        invariant |calls.list| == i && CommandsGone(Set(), !lapsed, calls, tx, commands, effectChainDepthByTx, old(store), store)
      {
        ghost var storeBefore, revisionBefore, exact := store, txTransitionRevision, !lapsed;
        var done, caught;
        ghost var broken, call;
        done, caught, broken, call := RunCommand(tx, shown, commands[i], baseline);
        if !lapsed && !broken {
          TrackedTwice(effectChainDepthByTx.Keys, effectChainDepthByTx.Keys, old(store), old(txTransitionRevision),
                       storeBefore, revisionBefore, store, txTransitionRevision);
        }
        if lapsed { CommandsLess(Set(), exact, calls, tx, commands, effectChainDepthByTx, old(store)); }
        CommandsNext(Set(), !lapsed, calls, tx, commands, effectChainDepthByTx, old(store), storeBefore, Made(call, store, done));
        calls := And(calls, Made(call, store, done));
        if !done && !caught { return false, broken, calls; }
        assert handlers[name](shown)[i] == commands[i];
        if !lapsed && broken {
          CommandsLess(Set(), true, calls, tx, commands, effectChainDepthByTx, old(store));
          lapsed := true;
        }
      }
      ok, torn := true, false;
    }

    method InvokeEffects(tx: string, record: R, effects: seq<string>) returns (ok: bool, ghost torn: bool, ghost calls: Calls<R>)
      requires Valid() && tx in store
      requires !lapsed ==> record == store[tx]
      modifies this`effectChainDepthByTx, this`txTransitionRevision, this`store, this`witnessed, this`lapsed
      ensures Valid() && effectChainDepthByTx == old(effectChainDepthByTx) && store.Keys == old(store.Keys)
      ensures !lapsed && !torn ==> Tracked(effectChainDepthByTx.Keys + {tx}, old(store), old(txTransitionRevision), store, txTransitionRevision)
      ensures Swallowed(old(lapsed), torn) && (torn ==> !ok)
      ensures EffectsRan(Set(), !lapsed, calls, tx, effects, effectChainDepthByTx, old(store), store, ok)
      decreases Remaining(ids, effectChainDepthByTx, limit), 2, 0
    {
      var baseline := Revision(tx);
      calls := Calls([]);
      for i := 0 to |effects|
        invariant Valid() && effectChainDepthByTx == old(effectChainDepthByTx) && store.Keys == old(store.Keys)
        invariant Swallowed(old(lapsed), false)
        invariant !lapsed ==> Tracked(effectChainDepthByTx.Keys + {tx}, old(store), old(txTransitionRevision), store, txTransitionRevision)
        invariant |calls.list| == i && EffectsGone(Set(), !lapsed, calls, tx, effects, effectChainDepthByTx, old(store), store)
      {
        ghost var storeBefore, revisionBefore, exact := store, txTransitionRevision, !lapsed;
        var done;
        ghost var broken, call;
        done, broken, call := InvokeSingleEffect(tx, record, effects[i], baseline);
        if !lapsed && !broken {
          TrackedTwice(effectChainDepthByTx.Keys + {tx}, effectChainDepthByTx.Keys + {tx}, old(store), old(txTransitionRevision),
                       storeBefore, revisionBefore, store, txTransitionRevision);
        }
        if lapsed { EffectsLess(Set(), exact, calls, tx, effects, effectChainDepthByTx, old(store)); }
        EffectsNext(Set(), !lapsed, calls, tx, effects, effectChainDepthByTx, old(store), storeBefore, Made(call, store, done));
        calls := And(calls, Made(call, store, done));
        if !done { return false, broken, calls; }
      }
      ok, torn := true, false;
    }

    /** None when it throws. The result is the stored record, however many transitions its effects have
        triggered, unless a handler swallowed the exception of a call that had marked its record. */
    method Transition(tx: string, event: string) returns (result: Option<R>, ghost torn: bool, ghost call: Call<R>)
      requires Valid()
      modifies this`effectChainDepthByTx, this`txTransitionRevision, this`store, this`witnessed, this`lapsed
      ensures Valid() && effectChainDepthByTx == old(effectChainDepthByTx) && store.Keys == old(store.Keys)
      ensures result.Some? && !lapsed ==> tx in store && result.value == store[tx]
      ensures !lapsed && !torn ==> Tracked(effectChainDepthByTx.Keys, old(store), old(txTransitionRevision), store, txTransitionRevision)
      ensures Swallowed(old(lapsed), torn) && (torn ==> result.None?)
      ensures TransitionRan(Set(), !lapsed, call, tx, event, effectChainDepthByTx, old(store), store, result.Some?)
      decreases Remaining(ids, effectChainDepthByTx, limit), 3, 0
    {
      torn := false;
      if tx !in store { return None, false, Absent; }
      match step(store[tx], event)
      case Rejected => return None, false, Moved(Calls([]));
      case Broken(record) =>
        store := store[tx := record];
        return None, true, Moved(Calls([]));
      case Committed(record, effects) =>
        store := store[tx := record];
        txTransitionRevision := txTransitionRevision[tx := Revision(tx) + 1];
        var revBeforeEffects := Revision(tx);
        var ok;
        ghost var calls;
        ok, torn, calls := InvokeEffects(tx, record, effects);
        call := Moved(calls);
        if !ok { return None, torn, call; }
        var nestedChanged := Revision(tx) != revBeforeEffects;
        if tx !in effectChainDepthByTx { txTransitionRevision := txTransitionRevision - {tx}; }
        result := Some(if nestedChanged then store[tx] else record);
    }
  }
}
