/** One call, match by match: when the working configuration stays well formed (runtime/actor.ts, the
    match loop of executeTransitionOnSnapshot). */
module Turns {
  import opened Records
  import opened Machines
  import opened DotPaths
  import opened Configurations
  import opened Entry
  import opened Leaves
  import opened Transitions
  import opened Validation
  import opened Engine
  import opened Matching
  import opened Broadcast
  import opened Completion
  import opened Calls

  /** The guard of one move: its target, if it resolves, is safe in the working configuration. */
  ghost predicate SafeMove(m: Machine, v: StateValue, source: Path, ref: string) {
    var t := ResolveTarget(m, Join(source), ref);
    t.Some? ==> source != [] && GetNodeByPath(m, t.value).Some? && SafeTarget(m, v, source, t.value)
  }

  ghost predicate SafeTurn<C>(m: Machine, v: StateValue, x: Match, attempt: Attempt<C>) {
    match attempt
    case Succeeded(_, given, _) => Reference(x, given) != "" ==> SafeMove(m, v, x.source, Reference(x, given))
    case Failed(_, fallback, _) => SafeMove(m, v, x.source, fallback)
  }

  /** The working configuration after one turn; None when the source throws. */
  function AfterTurn<C>(m: Machine, v: StateValue, x: Match, attempt: Attempt<C>): Option<StateValue> {
    match attempt
    case Succeeded(_, given, _) => Moved(m, v, x.source, Reference(x, given))
    case Failed(_, fallback, _) => Reached(m, v, x.source, fallback)
  }

  /** Every turn meets its guard when it comes. */
  ghost predicate SafeTurns<C>(m: Machine, v: StateValue, matches: seq<Match>, attempts: seq<Attempt<C>>)
    decreases |attempts|
  {
    attempts == [] || matches == [] || (
      && SafeTurn(m, v, matches[0], attempts[0])
      && var next := AfterTurn(m, v, matches[0], attempts[0]);
         next.Some? ==> SafeTurns(m, next.value, matches[1..], attempts[1..]))
  }

  /** The working configuration is well formed before, between and after the turns. */
  ghost predicate WellTurned<C>(m: Machine, v: StateValue, matches: seq<Match>, attempts: seq<Attempt<C>>)
    decreases |attempts|
  {
    Running(m, v) && (attempts == [] || matches == [] || (
      var next := AfterTurn(m, v, matches[0], attempts[0]);
      next.Some? ==> WellTurned(m, next.value, matches[1..], attempts[1..])))
  }

  ghost predicate Existing(m: Machine, matches: seq<Match>) {
    forall i :: 0 <= i < |matches| ==> matches[i].source != [] && NodeAt(LiveRoot(m), matches[i].source).Some?
  }

  lemma TurnIff<C>(m: Machine, v: StateValue, x: Match, attempt: Attempt<C>)
    requires Running(m, v) && x.source != [] && NodeAt(LiveRoot(m), x.source).Some?
    ensures SafeTurn(m, v, x, attempt) <==>
      (AfterTurn(m, v, x, attempt).Some? ==> Running(m, AfterTurn(m, v, x, attempt).value))
  {
    var ref := if attempt.Succeeded? then Reference(x, attempt.given) else attempt.fallback;
    ResolvedExists(m, Join(x.source), ref);
    var t := ResolveTarget(m, Join(x.source), ref);
    if t.Some? { NextIsWellFormedIff(m, v, x.source, t.value); }
  }

  /** Main result on one call: for any machine, any matches and any targets, the working
      configuration stays well formed throughout exactly when every turn meets its guard. */
  lemma {:induction false} CallIsWellFormedIff<C>(m: Machine, v: StateValue, matches: seq<Match>, attempts: seq<Attempt<C>>)
    requires Running(m, v) && Existing(m, matches)
    ensures WellTurned(m, v, matches, attempts) <==> SafeTurns(m, v, matches, attempts)
    decreases |attempts|
  {
    if attempts != [] && matches != [] {
      TurnIff(m, v, matches[0], attempts[0]);
      var next := AfterTurn(m, v, matches[0], attempts[0]);
      if next.Some? && Running(m, next.value) {
        CallIsWellFormedIff(m, next.value, matches[1..], attempts[1..]);
      }
    }
  }

  /** The working configuration after all turns. */
  function AfterTurns<C>(m: Machine, v: StateValue, matches: seq<Match>, attempts: seq<Attempt<C>>): Option<StateValue>
    decreases |attempts|
  {
    if attempts == [] || matches == [] then Some(v)
    else match AfterTurn(m, v, matches[0], attempts[0])
      case None => None
      case Some(next) => AfterTurns(m, next, matches[1..], attempts[1..])
  }

  lemma {:induction false} TurnsEndWell<C>(m: Machine, v: StateValue, matches: seq<Match>, attempts: seq<Attempt<C>>)
    requires WellTurned(m, v, matches, attempts)
    ensures AfterTurns(m, v, matches, attempts).Some? ==> Running(m, AfterTurns(m, v, matches, attempts).value)
    decreases |attempts|
  {
    if attempts != [] && matches != [] {
      var next := AfterTurn(m, v, matches[0], attempts[0]);
      if next.Some? { TurnsEndWell(m, next.value, matches[1..], attempts[1..]); }
    }
  }

  // ---- The cascade ----

  /** The target of every `onDone` transition that the cascade takes meets the guard where it is taken. */
  ghost predicate SafeCascade(m: Machine, v: StateValue, limit: nat)
    decreases limit
  {
    limit > 0 && FindPendingOnDone(m, v).Some? && PendingEdge(m, v).target != "" ==>
      && SafeMove(m, v, FindPendingOnDone(m, v).value, PendingEdge(m, v).target)
      && (TakeTurn(m, v).stop.None? ==> SafeCascade(m, TakeTurn(m, v).next, limit - 1))
  }

  /** The configuration is well formed before, between and after the transitions of the cascade. */
  ghost predicate WellCascade(m: Machine, v: StateValue, limit: nat)
    decreases limit
  {
    Running(m, v) && (limit > 0 && TakeTurn(m, v).stop.None? ==> WellCascade(m, TakeTurn(m, v).next, limit - 1))
  }

  lemma DoneIff(m: Machine, v: StateValue)
    requires Running(m, v) && ReadableRegions(LiveRoot(m))
    requires FindPendingOnDone(m, v).Some? && PendingEdge(m, v).target != ""
    ensures SafeMove(m, v, FindPendingOnDone(m, v).value, PendingEdge(m, v).target)
      <==> (TakeTurn(m, v).stop.None? ==> Running(m, TakeTurn(m, v).next))
  {
    var p := FindPendingOnDone(m, v).value;
    var ref := PendingEdge(m, v).target;
    PendingIsDeepestComplete(m, v);
    assert Ready(m, v, p);
    LiveRootShape(m);
    ActiveNode(LiveRoot(m), v, p);
    ResolvedExists(m, Join(p), ref);
    var t := ResolveTarget(m, Join(p), ref);
    if t.Some? { NextIsWellFormedIff(m, v, p, t.value); }
  }

  /** Main result on the cascade: for any `onDone` targets, the configuration stays well formed
      throughout exactly when each of them meets the guard. */
  lemma {:induction false} CascadeIsWellFormedIff(m: Machine, v: StateValue, limit: nat)
    requires Running(m, v) && ReadableRegions(LiveRoot(m))
    ensures WellCascade(m, v, limit) <==> SafeCascade(m, v, limit)
    decreases limit
  {
    if limit > 0 && FindPendingOnDone(m, v).Some? && PendingEdge(m, v).target != "" {
      DoneIff(m, v);
      var now := TakeTurn(m, v);
      if now.stop.None? && Running(m, now.next) { CascadeIsWellFormedIff(m, now.next, limit - 1); }
    }
  }

  /** Local `onDone` targets meet it. */
  lemma LocalCascadeIsSafe(m: Machine, v: StateValue, limit: nat)
    requires Running(m, v) && ReadableRegions(LiveRoot(m)) && OnDoneLocal(m)
    ensures SafeCascade(m, v, limit)
  {
    LocalCascadeIsWell(m, v, limit);
    CascadeIsWellFormedIff(m, v, limit);
  }

  lemma {:induction false} LocalCascadeIsWell(m: Machine, v: StateValue, limit: nat)
    requires Running(m, v) && ReadableRegions(LiveRoot(m)) && OnDoneLocal(m)
    ensures WellCascade(m, v, limit)
    decreases limit
  {
    TurnIsSafe(m, v);
    if limit > 0 && TakeTurn(m, v).stop.None? { LocalCascadeIsWell(m, TakeTurn(m, v).next, limit - 1); }
  }

  lemma {:induction false} CascadeEndsWell(m: Machine, turn: StateValue -> Turn, v: StateValue, limit: nat)
    requires WellCascade(m, v, limit) && forall x {:trigger TakeTurn(m, x)} :: turn(x) == TakeTurn(m, x)
    ensures Running(m, Repeat(turn, v, limit).value)
    decreases limit
  {
    assert turn(v) == TakeTurn(m, v);
    if limit > 0 && turn(v).stop.None? { CascadeEndsWell(m, turn, turn(v).next, limit - 1); }
  }

  // ---- What the call leaves ----

  lemma WorkUnfolds<C>(a: Actor, event: string, matches: seq<Match>, attempts: seq<Attempt<C>>, now: Local<C>)
    requires attempts != [] && matches != []
    ensures var next := Calls.Advance(a, event, matches[0], attempts[0], now);
      Work(a, event, matches, attempts, now) == if next.None? then None else Work(a, event, matches[1..], attempts[1..], next.value)
  {}

  lemma {:induction false} WorkEndsWell<C>(a: Actor, event: string, matches: seq<Match>, attempts: seq<Attempt<C>>, now: Local<C>)
    requires |attempts| <= |matches| && WellTurned(a.m, now.value, matches, attempts)
    requires Work(a, event, matches, attempts, now).Some?
    ensures Running(a.m, Work(a, event, matches, attempts, now).value.value)
    ensures AfterTurns(a.m, now.value, matches, attempts) == Some(Work(a, event, matches, attempts, now).value.value)
    decreases |attempts|
  {
    if attempts != [] {
      WorkUnfolds(a, event, matches, attempts, now);
      WorkEndsWell(a, event, matches[1..], attempts[1..], Calls.Advance(a, event, matches[0], attempts[0], now).value);
    }
  }

  /** The fallback of a failed attempt, which is the last turn. */
  lemma {:induction false} FailureEndsWell<C>(a: Actor, event: string, matches: seq<Match>, attempts: seq<Attempt<C>>, now: Local<C>)
    requires 0 < |attempts| <= |matches| && attempts[|attempts| - 1].Failed?
    requires WellTurned(a.m, now.value, matches, attempts)
    requires Work(a, event, matches, attempts[..|attempts| - 1], now).Some?
    ensures var r := Reached(a.m, Work(a, event, matches, attempts[..|attempts| - 1], now).value.value,
                             matches[|attempts| - 1].source, attempts[|attempts| - 1].fallback);
      r.Some? ==> Running(a.m, r.value)
    decreases |attempts|
  {
    var k := |attempts| - 1;
    if k > 0 {
      assert attempts[..k][0] == attempts[0] && attempts[..k][1..] == attempts[1..][..k - 1];
      WorkUnfolds(a, event, matches, attempts[..k], now);
      FailureEndsWell(a, event, matches[1..], attempts[1..], Calls.Advance(a, event, matches[0], attempts[0], now).value);
    }
  }

  // ---- Region-local calls ----

  /** If the reference resolves, it is region-local; unless it is the last of its call, it also
      stays in every region of its source. */
  ghost predicate LocalRef(m: Machine, source: Path, ref: string, last: bool) {
    var t := ResolveTarget(m, Join(source), ref);
    t.Some? ==>
      LocalTo(LiveRoot(m), source, t.value) && (last || RegionLocal(LiveRoot(m), t.value, source))
  }

  ghost predicate LocalTurn<C>(m: Machine, x: Match, attempt: Attempt<C>, last: bool) {
    match attempt
    case Succeeded(_, given, _) => Reference(x, given) != "" ==> LocalRef(m, x.source, Reference(x, given), last)
    case Failed(_, fallback, _) => last && LocalRef(m, x.source, fallback, last)
  }

  /** The sources still to be served are active, and none is above another. */
  ghost predicate Spread(m: Machine, v: StateValue, matches: seq<Match>) {
    && (forall i :: 0 <= i < |matches| ==> matches[i].source != [] && IsActive(LiveRoot(m), v, matches[i].source))
    && forall i, j :: 0 <= i < |matches| && 0 <= j < |matches| && i != j ==> !(matches[i].source <= matches[j].source)
  }

  lemma MatchesAreSpread(m: Machine, v: StateValue, event: string)
    requires Running(m, v)
    ensures Spread(m, v, ResolveTransitions(m, v, event)) && Existing(m, ResolveTransitions(m, v, event))
  {
    var matches := ResolveTransitions(m, v, event);
    var moves := seq(|matches|, i requires 0 <= i < |matches| => Move(matches[i].source, ""));
    MatchedSources(m, v, event, moves);
    LiveRootShape(m);
    forall i | 0 <= i < |matches|
      ensures matches[i].source != [] && IsActive(LiveRoot(m), v, matches[i].source)
      ensures NodeAt(LiveRoot(m), matches[i].source).Some?
    {
      assert moves[i].source == matches[i].source;
      ActiveNode(LiveRoot(m), v, matches[i].source);
    }
    forall i, j | 0 <= i < |matches| && 0 <= j < |matches| && i != j ensures !(matches[i].source <= matches[j].source) {
      assert moves[i].source == matches[i].source && moves[j].source == matches[j].source;
    }
  }

  lemma LocalMoveIsSafe(m: Machine, v: StateValue, source: Path, ref: string, last: bool)
    requires Running(m, v) && source != [] && IsActive(LiveRoot(m), v, source)
    requires LocalRef(m, source, ref, last)
    ensures SafeMove(m, v, source, ref)
    ensures Reached(m, v, source, ref).Some? ==> Running(m, Reached(m, v, source, ref).value)
  {
    var t := ResolveTarget(m, Join(source), ref);
    ResolvedExists(m, Join(source), ref);
    if t.Some? {
      ActiveSource(m, v, source, t.value);
      LocalIsSafe(m, v, source, t.value);
      NextIsWellFormedIff(m, v, source, t.value);
    }
  }

  /** An active state apart from the source of a move that stays in its regions survives it. */
  lemma OthersSurvive(m: Machine, v: StateValue, source: Path, ref: string, other: Path)
    requires Running(m, v) && source != [] && IsActive(LiveRoot(m), v, source)
    requires LocalRef(m, source, ref, false) && Reached(m, v, source, ref).Some?
    requires IsActive(LiveRoot(m), v, other) && !(source <= other) && !(other <= source)
    ensures IsActive(LiveRoot(m), Reached(m, v, source, ref).value, other)
  {
    ResolvedExists(m, Join(source), ref);
    var t := ResolveTarget(m, Join(source), ref).value;
    var x := Broadcast.Step(source, t);
    StepFacts(m, v, x);
    LiveRootShape(m);
    var i := Diverge(LiveRoot(m), v, source, other);
    Confined(m, x, i, other);
    assert source[..i + 1][i] == source[i];
  }

  /** One local turn: it is safe, and unless it is the last, the remaining sources stay active. */
  lemma LocalTurnIsSafe<C>(m: Machine, v: StateValue, matches: seq<Match>, attempt: Attempt<C>, last: bool)
    requires Running(m, v) && Spread(m, v, matches) && matches != []
    requires LocalTurn(m, matches[0], attempt, last)
    ensures SafeTurn(m, v, matches[0], attempt)
    ensures var next := AfterTurn(m, v, matches[0], attempt);
      next.Some? ==> Running(m, next.value) && (!last ==> Spread(m, next.value, matches[1..]))
  {
    var x := matches[0];
    var ref := if attempt.Succeeded? then Reference(x, attempt.given) else attempt.fallback;
    var next := AfterTurn(m, v, x, attempt);
    if attempt.Failed? || ref != "" { LocalMoveIsSafe(m, v, x.source, ref, last); }
    if next.Some? && !last {
      forall i | 0 <= i < |matches[1..]|
        ensures matches[1..][i].source != [] && IsActive(LiveRoot(m), next.value, matches[1..][i].source)
      {
        assert matches[1..][i] == matches[i + 1];
        if ref != "" { OthersSurvive(m, v, x.source, ref, matches[i + 1].source); }
      }
    }
  }

  /** A call whose targets are region-local, and stay in the regions of their source except for the
      last, meets the guard at every turn. */
  lemma {:induction false} LocalCallIsSafe<C>(m: Machine, v: StateValue, matches: seq<Match>, attempts: seq<Attempt<C>>)
    requires Running(m, v) && Spread(m, v, matches) && |attempts| <= |matches|
    requires forall i :: 0 <= i < |attempts| ==> LocalTurn(m, matches[i], attempts[i], i == |attempts| - 1)
    ensures SafeTurns(m, v, matches, attempts)
    decreases |attempts|
  {
    if attempts != [] {
      var last := |attempts| == 1;
      assert LocalTurn(m, matches[0], attempts[0], last);
      LocalTurnIsSafe(m, v, matches, attempts[0], last);
      var next := AfterTurn(m, v, matches[0], attempts[0]);
      if next.Some? && !last {
        forall i | 0 <= i < |attempts[1..]| ensures LocalTurn(m, matches[1..][i], attempts[1..][i], i == |attempts[1..]| - 1) {
          assert LocalTurn(m, matches[i + 1], attempts[i + 1], i + 1 == |attempts| - 1);
        }
        LocalCallIsSafe(m, next.value, matches[1..], attempts[1..]);
      }
    }
  }
}
