/** One event matched in several regions: the matches are applied one after the other to the
    working configuration (runtime/actor.ts, the match loop of executeTransitionOnSnapshot). */
module Broadcast {
  import opened Records
  import opened Machines
  import opened DotPaths
  import opened Configurations
  import opened Entry
  import opened Transitions
  import opened Validation
  import opened Engine
  import opened Matching

  /** A matched source and the target reference in effect: the handler's own, or the edge's. An
      empty reference leaves the configuration as it is. */
  datatype Move = Move(source: Path, ref: string)

  /** A move whose reference has been resolved. */
  datatype Step = Step(s: Path, t: Path)

  /** The working configuration after all moves; None when a reference does not resolve. */
  function ApplyMoves(m: Machine, cur: StateValue, moves: seq<Move>): Option<StateValue>
    requires forall i :: 0 <= i < |moves| ==> moves[i].source != []
    decreases |moves|
  {
    if moves == [] then Some(cur)
    else if moves[0].ref == "" then ApplyMoves(m, cur, moves[1..])
    else match ApplyTarget(m, cur, moves[0].source, moves[0].ref)
      case None => None
      case Some(applied) => ApplyMoves(m, applied.next, moves[1..])
  }

  function Steps(m: Machine, moves: seq<Move>): seq<Step>
    decreases |moves|
  {
    if moves == [] then []
    else
      var t := ResolveTarget(m, Join(moves[0].source), moves[0].ref);
      (if moves[0].ref == "" || t.None? then [] else [Step(moves[0].source, t.value)]) + Steps(m, moves[1..])
  }

  ghost predicate Good(m: Machine, x: Step) {
    && x.s != [] && GetNodeByPath(m, x.t).Some?
    && LocalTo(LiveRoot(m), x.s, x.t)
    && RegionLocal(LiveRoot(m), x.t, x.s)
  }

  function ApplySteps(m: Machine, cur: StateValue, steps: seq<Step>): StateValue
    requires forall x :: x in steps ==> x.s != [] && GetNodeByPath(m, x.t).Some?
    decreases |steps|
  {
    if steps == [] then cur else ApplySteps(m, NextValue(m, cur, steps[0].s, steps[0].t), steps[1..])
  }

  /** Steps of one broadcast: each source is active, its target stays in every region of the
      source and enters no other parallel node, and no source is another's ancestor. */
  ghost predicate Broadcastable(m: Machine, cur: StateValue, steps: seq<Step>) {
    && (forall x :: x in steps ==> Good(m, x) && IsActive(LiveRoot(m), cur, x.s))
    && (forall x :: x in steps ==> multiset(steps)[x] == 1)
    && (forall x, y :: x in steps && y in steps && x != y ==> !(x.s <= y.s))
  }

  ghost predicate Exits(x: Step, q: Path)
    requires x.s != [] && x.t != []
  {
    x.s[..LcaLen(x.s, x.t) + 1] <= q
  }

  ghost predicate Enters(m: Machine, x: Step, q: Path)
    requires x.s != [] && x.t != [] && NodeAt(LiveRoot(m), x.t).Some?
  {
    Entering(LiveRoot(m), x.t, LcaLen(x.s, x.t), q)
  }

  /** Two active states of which neither is above the other are in different regions. */
  lemma {:induction false} Diverge(n: Node, v: StateValue, a: Path, b: Path) returns (i: nat)
    requires WellShaped(n) && Wf(n, v) && IsActive(n, v, a) && IsActive(n, v, b)
    requires !(a <= b) && !(b <= a)
    ensures i < |a| && i < |b| && a[..i] == b[..i] && a[i] != b[i]
    ensures NodeAt(n, a[..i]).Some? && NodeAt(n, a[..i]).value.kind == Parallel
    decreases |a|
  {
    if a[0] != b[0] {
      i := 0;
      if n.kind == Compound { ActiveChildOfCompound(n, v); }
    } else {
      var c := Get(n.states, a[0]).value;
      WellShapedChild(n.states, a[0]);
      assert !(a[1..] <= b[1..]) && !(b[1..] <= a[1..]) by { Tails(a, b); Tails(b, a); }
      if n.kind == Parallel { RegionOf(n.states, v.fields, a[0]); }
      if IsLeaf(c) {
        assert false;
      } else {
        var j := Diverge(c, Get(v.fields, a[0]).value, a[1..], b[1..]);
        i := j + 1;
        assert a[..i] == [a[0]] + a[1..][..j] && b[..i] == [b[0]] + b[1..][..j];
        assert a[..i][1..] == a[1..][..j];
      }
    }
  }

  lemma Tails(a: Path, b: Path)
    requires a != [] && b != [] && a[0] == b[0]
    ensures a[1..] <= b[1..] ==> a <= b
  {
    assert a == [a[0]] + a[1..] && b == [b[0]] + b[1..];
  }

  /** Everything a step exits or enters lies inside each region that contains its source. */
  lemma Confined(m: Machine, x: Step, i: nat, q: Path)
    requires ValidTree(m) && Good(m, x) && NodeAt(LiveRoot(m), x.t).Some?
    requires i < |x.s| && NodeAt(LiveRoot(m), x.s[..i]).Some? && NodeAt(LiveRoot(m), x.s[..i]).value.kind == Parallel
    ensures Exits(x, q) || Enters(m, x, q) ==> x.s[..i + 1] <= q
  {
    var c := LcaLen(x.s, x.t);
    assert x.t[..i + 1] == x.s[..i + 1];
    if c < i {
      SamePrefix(x.s, x.t, i + 1, c);
      assert false;
    } else if Exits(x, q) {
      assert x.s[..c + 1][..i + 1] == x.s[..i + 1];
      assert x.s[..c + 1] <= q;
    } else if Enters(m, x, q) {
      assert q[..i + 1] == x.t[..i + 1];
    }
  }

  /** The parts touched by two steps of a broadcast are disjoint. */
  lemma Apart(m: Machine, cur: StateValue, x: Step, y: Step, q: Path)
    requires Running(m, cur) && Good(m, x) && Good(m, y)
    requires IsActive(LiveRoot(m), cur, x.s) && IsActive(LiveRoot(m), cur, y.s)
    requires !(x.s <= y.s) && !(y.s <= x.s)
    requires NodeAt(LiveRoot(m), x.t).Some? && NodeAt(LiveRoot(m), y.t).Some?
    ensures !((Exits(x, q) || Enters(m, x, q)) && (Exits(y, q) || Enters(m, y, q)))
    ensures !Exits(x, y.s)
  {
    LiveRootShape(m);
    var i := Diverge(LiveRoot(m), cur, x.s, y.s);
    Confined(m, x, i, q);
    Confined(m, y, i, q);
    Confined(m, x, i, y.s);
    assert x.s[..i + 1][i] != y.s[..i + 1][i];
  }

  lemma StepFacts(m: Machine, cur: StateValue, x: Step)
    requires Running(m, cur) && Good(m, x) && IsActive(LiveRoot(m), cur, x.s)
    ensures Running(m, NextValue(m, cur, x.s, x.t)) && NodeAt(LiveRoot(m), x.t).Some?
    ensures forall q :: IsActive(LiveRoot(m), NextValue(m, cur, x.s, x.t), q) <==>
      (IsActive(LiveRoot(m), cur, q) && !Exits(x, q)) || Enters(m, x, q)
  {
    ActiveSource(m, cur, x.s, x.t);
    LocalIsSafe(m, cur, x.s, x.t);
    NextIsWellFormedIff(m, cur, x.s, x.t);
    forall q ensures IsActive(LiveRoot(m), NextValue(m, cur, x.s, x.t), q) <==>
      (IsActive(LiveRoot(m), cur, q) && !Exits(x, q)) || Enters(m, x, q)
    {
      NextActive(m, cur, x.s, x.t, q);
    }
  }

  /** Applying one step leaves the others applicable: their sources are still active. */
  lemma StillBroadcastable(m: Machine, cur: StateValue, steps: seq<Step>)
    requires Running(m, cur) && Broadcastable(m, cur, steps) && steps != []
    ensures Running(m, NextValue(m, cur, steps[0].s, steps[0].t))
    ensures Broadcastable(m, NextValue(m, cur, steps[0].s, steps[0].t), steps[1..])
    ensures steps[0] !in steps[1..]
  {
    var x := steps[0];
    assert steps == [x] + steps[1..];
    assert multiset(steps) == multiset{x} + multiset(steps[1..]);
    assert multiset(steps)[x] == 1;
    StepFacts(m, cur, x);
    forall y | y in steps[1..] ensures IsActive(LiveRoot(m), NextValue(m, cur, x.s, x.t), y.s) && multiset(steps[1..])[y] == 1 {
      assert y in steps && multiset(steps)[y] == 1;
      StepFacts(m, cur, y);
      Apart(m, cur, x, y, []);
    }
  }

  /** What is active after a broadcast, without mentioning an order. */
  ghost predicate AfterAll(m: Machine, cur: StateValue, steps: seq<Step>, q: Path)
    requires forall x :: x in steps ==> x.s != [] && x.t != [] && NodeAt(LiveRoot(m), x.t).Some?
  {
    || (IsActive(LiveRoot(m), cur, q) && forall x :: x in steps ==> !Exits(x, q))
    || exists x :: x in steps && Enters(m, x, q)
  }

  lemma {:induction false} BroadcastActive(m: Machine, cur: StateValue, steps: seq<Step>, q: Path)
    requires Running(m, cur) && Broadcastable(m, cur, steps)
    ensures forall x :: x in steps ==> x.s != [] && x.t != [] && NodeAt(LiveRoot(m), x.t).Some?
    ensures Running(m, ApplySteps(m, cur, steps))
    ensures IsActive(LiveRoot(m), ApplySteps(m, cur, steps), q) <==> AfterAll(m, cur, steps, q)
    decreases |steps|
  {
    forall x | x in steps ensures NodeAt(LiveRoot(m), x.t).Some? { StepFacts(m, cur, x); }
    if steps != [] {
      var x := steps[0];
      var next := NextValue(m, cur, x.s, x.t);
      StillBroadcastable(m, cur, steps);
      StepFacts(m, cur, x);
      BroadcastActive(m, next, steps[1..], q);
      assert forall y :: y in steps <==> y == x || y in steps[1..];
      forall y | y in steps[1..] ensures !(Enters(m, x, q) && Exits(y, q)) {
        Apart(m, cur, x, y, q);
      }
    }
  }

  /** Main result: the outcome of a broadcast does not depend on the order of its matches. */
  lemma OrderDoesNotMatter(m: Machine, cur: StateValue, steps: seq<Step>, reordered: seq<Step>)
    requires Running(m, cur) && Broadcastable(m, cur, steps)
    requires multiset(reordered) == multiset(steps)
    ensures Broadcastable(m, cur, reordered)
    ensures ApplySteps(m, cur, reordered) == ApplySteps(m, cur, steps)
  {
    forall x ensures x in reordered <==> x in steps {
      assert x in reordered <==> x in multiset(reordered);
      assert x in steps <==> x in multiset(steps);
    }
    LiveRootShape(m);
    forall q ensures IsActive(LiveRoot(m), ApplySteps(m, cur, reordered), q)
                <==> IsActive(LiveRoot(m), ApplySteps(m, cur, steps), q)
    {
      BroadcastActive(m, cur, steps, q);
      BroadcastActive(m, cur, reordered, q);
    }
    BroadcastActive(m, cur, steps, []);
    BroadcastActive(m, cur, reordered, []);
    ActiveDetermines(LiveRoot(m), ApplySteps(m, cur, reordered), ApplySteps(m, cur, steps));
  }

  /** Each source is still active when its turn comes. */
  lemma {:induction false} ActiveAtItsTurn(m: Machine, cur: StateValue, steps: seq<Step>, k: nat)
    requires Running(m, cur) && Broadcastable(m, cur, steps) && k < |steps|
    ensures forall x :: x in steps[..k] ==> x.s != [] && GetNodeByPath(m, x.t).Some?
    ensures Running(m, ApplySteps(m, cur, steps[..k])) && IsActive(LiveRoot(m), ApplySteps(m, cur, steps[..k]), steps[k].s)
    decreases k
  {
    assert steps[k] in steps;
    PrefixResolves(m, cur, steps, k);
    if k > 0 {
      assert steps[0] in steps;
      var next := NextValue(m, cur, steps[0].s, steps[0].t);
      StillBroadcastable(m, cur, steps);
      ActiveAtItsTurn(m, next, steps[1..], k - 1);
      assert steps[..k][0] == steps[0] && steps[..k][1..] == steps[1..][..k - 1];
      assert ApplySteps(m, cur, steps[..k]) == ApplySteps(m, next, steps[1..][..k - 1]);
      assert steps[1..][k - 1] == steps[k];
    }
  }

  lemma PrefixResolves(m: Machine, cur: StateValue, steps: seq<Step>, k: nat)
    requires Broadcastable(m, cur, steps) && k <= |steps|
    ensures forall x :: x in steps[..k] ==> x.s != [] && GetNodeByPath(m, x.t).Some?
  {
    forall x | x in steps[..k] ensures x.s != [] && GetNodeByPath(m, x.t).Some? { assert x in steps; }
  }

  /** The moves made for the matches of an event: one per match, each without effect or to a target
      that stays in the source's regions and enters no other parallel node. */
  ghost predicate MovesFor(m: Machine, cur: StateValue, event: string, moves: seq<Move>) {
    var matches := ResolveTransitions(m, cur, event);
    && |moves| == |matches|
    && forall i :: 0 <= i < |moves| ==>
         && moves[i].source == matches[i].source
         && (moves[i].ref != "" ==>
               var t := ResolveTarget(m, Join(moves[i].source), moves[i].ref);
               t.Some? && Good(m, Step(moves[i].source, t.value)))
  }

  ghost predicate Takes(m: Machine, move: Move, x: Step) {
    move.ref != "" && move.source == x.s && ResolveTarget(m, Join(move.source), move.ref) == Some(x.t)
  }

  lemma {:induction false} StepsAre(m: Machine, moves: seq<Move>, x: Step)
    ensures x in Steps(m, moves) <==> exists i :: 0 <= i < |moves| && Takes(m, moves[i], x)
    decreases |moves|
  {
    if moves != [] {
      StepsAre(m, moves[1..], x);
      if x in Steps(m, moves[1..]) {
        var i :| 0 <= i < |moves[1..]| && Takes(m, moves[1..][i], x);
        assert Takes(m, moves[i + 1], x);
      } else if x in Steps(m, moves) {
        assert Takes(m, moves[0], x);
      }
      if i :| 0 < i < |moves| && Takes(m, moves[i], x) {
        assert Takes(m, moves[1..][i - 1], x);
      }
    }
  }

  lemma {:induction false} StepsOnce(m: Machine, moves: seq<Move>, x: Step)
    requires forall i, j :: 0 <= i < j < |moves| ==> moves[i].source != moves[j].source
    requires x in Steps(m, moves)
    ensures multiset(Steps(m, moves))[x] == 1
    decreases |moves|
  {
    var rest := Steps(m, moves[1..]);
    StepsAre(m, moves[1..], x);
    if x in rest {
      var i :| 0 <= i < |moves[1..]| && Takes(m, moves[1..][i], x);
      assert moves[i + 1].source == x.s != moves[0].source;
      StepsOnce(m, moves[1..], x);
    }
    if Steps(m, moves) != rest {
      var y := Step(moves[0].source, ResolveTarget(m, Join(moves[0].source), moves[0].ref).value);
      assert Steps(m, moves) == [y] + rest;
      OnceMore(y, rest, x);
    }
  }

  lemma OnceMore(y: Step, rest: seq<Step>, x: Step)
    ensures multiset([y] + rest)[x] == (if x == y then 1 else 0) + multiset(rest)[x]
  {
    assert multiset([y] + rest) == multiset{y} + multiset(rest);
  }

  lemma {:induction false} MovesAreSteps(m: Machine, cur: StateValue, moves: seq<Move>)
    requires forall i :: 0 <= i < |moves| ==> moves[i].source != []
    requires forall i :: 0 <= i < |moves| ==>
      (moves[i].ref != "" ==> ResolveTarget(m, Join(moves[i].source), moves[i].ref).Some?)
    ensures forall x :: x in Steps(m, moves) ==> x.s != [] && GetNodeByPath(m, x.t).Some?
    ensures ApplyMoves(m, cur, moves) == Some(ApplySteps(m, cur, Steps(m, moves)))
    decreases |moves|
  {
    if moves != [] {
      ResolvedExists(m, Join(moves[0].source), moves[0].ref);
      var next := if moves[0].ref == "" then cur
        else NextValue(m, cur, moves[0].source, ResolveTarget(m, Join(moves[0].source), moves[0].ref).value);
      MovesAreSteps(m, next, moves[1..]);
      var rest := Steps(m, moves[1..]);
      if moves[0].ref == "" {
        assert Steps(m, moves) == [] + rest == rest;
      } else {
        var x := Step(moves[0].source, ResolveTarget(m, Join(moves[0].source), moves[0].ref).value);
        assert Steps(m, moves) == [x] + rest && ([x] + rest)[1..] == rest;
      }
    }
  }

  lemma MatchedSources(m: Machine, cur: StateValue, event: string, moves: seq<Move>)
    requires Running(m, cur) && MovesFor(m, cur, event, moves)
    ensures forall i :: 0 <= i < |moves| ==> moves[i].source != [] && IsActive(LiveRoot(m), cur, moves[i].source)
    ensures forall i, j :: 0 <= i < |moves| && 0 <= j < |moves| && i != j ==> !(moves[i].source <= moves[j].source)
  {
    var matches := ResolveTransitions(m, cur, event);
    forall i | 0 <= i < |moves| ensures moves[i].source != [] && IsActive(LiveRoot(m), cur, moves[i].source) {
      MatchesAreInnermost(m, cur, event, matches[i]);
    }
    forall i, j | 0 <= i < |moves| && 0 <= j < |moves| && i != j ensures !(moves[i].source <= moves[j].source) {
      MatchesAreInnermost(m, cur, event, matches[i]);
      NoMatchAboveAnother(m, cur, event, matches[i], matches[j]);
      assert matches[i].source != matches[j].source;
      if moves[i].source <= moves[j].source { ProperOrEqual(moves[i].source, moves[j].source); }
    }
  }

  lemma ProperOrEqual(p: Path, q: Path)
    requires p <= q
    ensures p < q || p == q
  {}

  lemma MatchedSteps(m: Machine, cur: StateValue, event: string, moves: seq<Move>)
    requires Running(m, cur) && MovesFor(m, cur, event, moves)
    ensures Broadcastable(m, cur, Steps(m, moves))
  {
    var steps := Steps(m, moves);
    MatchedSources(m, cur, event, moves);
    forall x | x in steps
      ensures Good(m, x) && IsActive(LiveRoot(m), cur, x.s) && multiset(steps)[x] == 1
    {
      StepsAre(m, moves, x);
      StepsOnce(m, moves, x);
    }
    forall x, y | x in steps && y in steps && x != y ensures !(x.s <= y.s) {
      StepsAre(m, moves, x);
      StepsAre(m, moves, y);
      var i :| 0 <= i < |moves| && Takes(m, moves[i], x);
      var j :| 0 <= j < |moves| && Takes(m, moves[j], y);
      assert i != j;
    }
  }

  /** Main result: broadcasting an event is safe. Every source is active at its turn, no reference
      fails to resolve, and the final configuration is well formed. */
  lemma BroadcastIsSafe(m: Machine, cur: StateValue, event: string, moves: seq<Move>)
    requires Running(m, cur) && MovesFor(m, cur, event, moves)
    ensures forall i :: 0 <= i < |moves| ==> moves[i].source != []
    ensures Broadcastable(m, cur, Steps(m, moves))
    ensures ApplyMoves(m, cur, moves) == Some(ApplySteps(m, cur, Steps(m, moves)))
    ensures Running(m, ApplyMoves(m, cur, moves).value)
  {
    MatchedSources(m, cur, event, moves);
    MatchedSteps(m, cur, event, moves);
    MovesAreSteps(m, cur, moves);
    BroadcastActive(m, cur, Steps(m, moves), []);
  }
}
