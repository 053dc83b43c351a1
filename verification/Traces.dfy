/** The effects of a whole call (runtime/actor.ts, executeTransitionOnSnapshot): what the loops collect,
    and, apart from that, which nodes each of its transitions leaves and enters, and in which order
    the lists of those nodes are queued. */
module Traces {
  import opened Records
  import opened Machines
  import opened DotPaths
  import opened PathLists
  import opened Configurations
  import opened Entry
  import opened Leaves
  import opened Transitions
  import opened Validation
  import opened Engine
  import opened Matching
  import opened Completion
  import opened Stores
  import opened Calls
  import opened Turns
  import opened Arrivals
  import opened DocumentOrder

  // ---- One transition ----

  /** A transition taken from a source: its target, the length of the common ancestor, and the nodes
      it leaves and enters. */
  datatype Passage = Passage(ref: string, target: Path, common: nat, left: seq<Path>, entered: seq<Path>)

  /** The least common ancestor has length `c`; it is a proper ancestor of both. */
  predicate Parts(s: Path, t: Path, c: nat) {
    && c < |s| && c < |t| && s[..c] == t[..c]
    && (s[c] != t[c] || c + 1 == |s| || c + 1 == |t|)
  }

  /** Below the common ancestor, the nodes on the way to the target and those that its initial
      children and regions lead to. */
  ghost predicate Arrives(m: Machine, t: Path, c: nat, q: Path)
    requires GetNodeByPath(m, t).Some?
  {
    c < |q| && (q <= t || (t <= q && FollowsInitial(GetNodeByPath(m, t).value, q[|t|..])))
  }

  /** From configuration `v`, the source's transition leaves exactly the active nodes below its branch of the
      common ancestor, a leaf first and every other node directly after its first child, and enters
      the nodes down to the target and its initial descendants, each in document order. It lands on
      the target. */
  ghost predicate Passes(m: Machine, v: StateValue, s: Path, x: Passage, next: StateValue) {
    && s != [] && ResolveTarget(m, Join(s), x.ref) == Some(x.target) && GetNodeByPath(m, x.target).Some?
    && Parts(s, x.target, x.common)
    && (forall q :: q in x.left <==> s[..x.common + 1] <= q && IsActive(LiveRoot(m), v, q))
    && LeavingOrder(LiveRoot(m), x.left)
    && (forall q :: q in x.entered <==> Arrives(m, x.target, x.common, q))
    && InDocOrder(Root(m), x.entered)
    && Lands(m, v, x.target, next)
  }

  lemma PassageOf(m: Machine, v: StateValue, s: Path, ref: string) returns (x: Passage)
    requires Running(m, v) && ReadableRegions(LiveRoot(m)) && s != [] && NodeAt(LiveRoot(m), s).Some?
    requires ApplyTarget(m, v, s, ref).Some? && Running(m, ApplyTarget(m, v, s, ref).value.next)
    ensures x.ref == ref && Passes(m, v, s, x, ApplyTarget(m, v, s, ref).value.next)
    ensures ApplyTarget(m, v, s, ref).value.exits == Collect(Root(m), x.left, (n: Node) => n.exit)
    ensures ApplyTarget(m, v, s, ref).value.entries == Collect(Root(m), x.entered, (n: Node) => n.entry)
  {
    var t := ResolveTarget(m, Join(s), ref).value;
    ResolvedExists(m, Join(s), ref);
    var c := LcaLen(s, t);
    NextIsWellFormedIff(m, v, s, t);
    NextIsTarget(m, v, s, t);
    x := Passage(ref, t, c, ExitPaths(m, v, s[..c + 1]), TargetPaths(Root(m), t, c));
    LeftNodes(m, v, s[..c + 1]);
    ArrivedNodes(m, t, c);
    ExitListIs(Root(m), x.left);
    EntryListIs(Root(m), x.entered);
  }

  lemma LeftNodes(m: Machine, v: StateValue, prefix: Path)
    requires Running(m, v) && ReadableRegions(LiveRoot(m)) && prefix != []
    ensures forall q :: q in ExitPaths(m, v, prefix) <==> prefix <= q && IsActive(LiveRoot(m), v, q)
    ensures LeavingOrder(LiveRoot(m), ExitPaths(m, v, prefix))
  {
    var root := LiveRoot(m);
    var order := ExitPaths(m, v, prefix);
    var leaves := ActiveLeafPaths(m, v, []);
    ExitedNodes(m, v, prefix);
    ExitsInDocOrder(m, v, prefix);
    LiveRootShape(m);
    LeavesOf(m, v, []);
    forall i | 0 <= i < |order| ensures NodeAt(root, order[i]).Some? && (IsLeaf(NodeAt(root, order[i]).value) || AfterFirstChild(order, i)) {
      assert order[i] in order;
      ActiveNode(root, v, order[i]);
      assert FollowsChild(order, leaves, i);
      if order[i] in leaves { LeafKinds(root, v, order[i]); }
    }
  }

  lemma {:induction false} ExitListIs(n: Node, ps: seq<Path>)
    ensures Collect(n, ps, ExitList) == Collect(n, ps, (c: Node) => c.exit)
  {
    if ps != [] { ExitListIs(n, ps[1..]); }
  }

  lemma ArrivedNodes(m: Machine, t: Path, c: nat)
    requires ValidTree(m) && c < |t| && GetNodeByPath(m, t).Some?
    ensures forall q :: q in TargetPaths(Root(m), t, c) <==> Arrives(m, t, c, q)
    ensures InDocOrder(Root(m), TargetPaths(Root(m), t, c))
    ensures Collect(Root(m), AncestorPaths(t, c), EntryList) + EnterSubtree(GetNodeByPath(m, t).value).effects
      == Collect(Root(m), TargetPaths(Root(m), t, c), EntryList)
  {
    var root := Root(m);
    var n := NodeAt(root, t).value;
    WellShapedAt(root, t);
    forall q ensures q in TargetPaths(root, t, c) <==> Arrives(m, t, c, q) {
      TargetPathsAre(root, t, c, q);
      if t <= q { EnteredFollow(n, q[|t|..]); }
      if q == t { assert FollowsInitial(n, []); }
    }
    EnteredInDocOrder(n);
    TargetsInDocOrder(root, t, c);
    EnterEffects(n);
    CollectBelow(root, t, EnteredPaths(n), EntryList);
    CollectAppend(root, AncestorPaths(t, c), Below(t, EnteredPaths(n)), EntryList);
  }

  lemma {:induction false} BeforeBelow(n: Node, t: Path, p: Path, q: Path)
    requires NodeAt(n, t).Some?
    ensures DocBefore(n, t + p, t + q) <==> DocBefore(NodeAt(n, t).value, p, q)
    decreases |t|
  {
    if t == [] {
      assert t + p == p && t + q == q;
    } else {
      assert (t + p)[1..] == t[1..] + p && (t + q)[1..] == t[1..] + q;
      BeforeBelow(Get(n.states, t[0]).value, t[1..], p, q);
    }
  }

  lemma TargetsInDocOrder(n: Node, t: Path, c: nat)
    requires c < |t| && NodeAt(n, t).Some? && InDocOrder(NodeAt(n, t).value, EnteredPaths(NodeAt(n, t).value))
    ensures InDocOrder(n, TargetPaths(n, t, c))
  {
    var inner := EnteredPaths(NodeAt(n, t).value);
    var ps := TargetPaths(n, t, c);
    var k := |t| - 1 - c;
    forall i, j | 0 <= i < j < |ps| ensures Precedes(n, ps[i], ps[j]) {
      if i < k {
        assert ps[i] == t[..c + 1 + i];
        if j < k { assert ps[j] == t[..c + 1 + j]; } else { assert ps[j] == t + inner[j - k]; }
        assert ps[i] < ps[j];
      } else {
        assert ps[i] == t + inner[i - k] && ps[j] == t + inner[j - k];
        assert Precedes(NodeAt(n, t).value, inner[i - k], inner[j - k]);
        BeforeBelow(n, t, inner[i - k], inner[j - k]);
      }
    }
  }

  // ---- What the loops collect ----

  /** The effects of one successful attempt in configuration `v`, in order: the exits, those of the edge,
      those the handler returned, the entries. */
  function StepEffects(m: Machine, x: Match, given: Option<string>, told: seq<string>, v: StateValue): seq<string> {
    var ref := Reference(x, given);
    if ref == "" || x.source == [] then x.edge.effects + told
    else match ApplyTarget(m, v, x.source, ref)
      case None => []
      case Some(applied) => applied.exits + x.edge.effects + told + applied.entries
  }

  /** The effects of the successful attempts; `told(i)` is what the i-th handler returned. */
  function PendingEffects<C>(a: Actor, event: string, matches: seq<Match>, attempts: seq<Attempt<C>>, told: nat -> seq<string>, start: Local<C>)
    : seq<string>
    requires |attempts| <= |matches|
    decreases |attempts|
  {
    if attempts == [] || attempts[|attempts| - 1].Failed? then []
    else
      var k := |attempts| - 1;
      var before := Work(a, event, matches, attempts[..k], start);
      PendingEffects(a, event, matches, attempts[..k], told, start)
      + if before.None? then [] else StepEffects(a.m, matches[k], attempts[k].given, told(k), before.value.value)
  }

  /** The effects of a failed call are only those of its fallback transition. */
  function FallbackEffects<C>(a: Actor, base: Row<C>, event: string, attempts: seq<Attempt<C>>): seq<string>
    requires FailsLast(a, base, event, attempts)
  {
    var now := UntilFailure(a, base, event, attempts);
    var source := ResolveTransitions(a.m, base.state, event)[|attempts| - 1].source;
    if now.None? || source == [] then []
    else match ApplyTarget(a.m, now.value.value, source, attempts[|attempts| - 1].fallback)
      case None => []
      case Some(applied) => applied.exits + applied.entries
  }

  /** The effects that a call invokes after its last update. */
  function CallEffects<C>(a: Actor, base: Row<C>, event: string, attempts: seq<Attempt<C>>, told: nat -> seq<string>, doneTold: nat -> seq<string>)
    : seq<string>
    requires |attempts| <= |ResolveTransitions(a.m, base.state, event)|
  {
    if FailsLast(a, base, event, attempts) then FallbackEffects(a, base, event, attempts)
    else
      var matches := ResolveTransitions(a.m, base.state, event);
      var now := Work(a, event, matches, attempts, Before(base));
      PendingEffects(a, event, matches, attempts, told, Before(base))
      + if now.None? then [] else CascadeEffects(a.m, now.value.value, CascadeLimit, doneTold)
  }

  // ---- A call as a chain of transitions ----

  /** One step of a call: what is queued before its transition, its transition if it has a target, and
      what is queued between the exits and the entries. */
  datatype Leg = Leg(source: Path, before: StateValue, first: seq<string>, passage: Option<Passage>, own: seq<string>, after: StateValue)

  ghost predicate Takes(m: Machine, x: Leg) {
    match x.passage
    case None => x.after == x.before
    case Some(p) => Passes(m, x.before, x.source, p, x.after)
  }

  /** The exit lists of the nodes left, then the step's own effects, then the entry lists of the nodes
      entered. */
  ghost function Queued(m: Machine, x: Leg): seq<string> {
    match x.passage
    case None => x.first + x.own
    case Some(p) =>
      x.first + Collect(Root(m), p.left, (n: Node) => n.exit) + x.own + Collect(Root(m), p.entered, (n: Node) => n.entry)
  }

  ghost function AllQueued(m: Machine, legs: seq<Leg>): seq<string> {
    if legs == [] then [] else Queued(m, legs[0]) + AllQueued(m, legs[1..])
  }

  /** Each step starts from the configuration that the one before it left. */
  ghost predicate Linked(legs: seq<Leg>, v: StateValue, w: StateValue)
    decreases |legs|
  {
    if legs == [] then v == w else legs[0].before == v && Linked(legs[1..], legs[0].after, w)
  }

  /** The step of a match: the handler's target counts if it gave one, else the edge's, and an empty
      one stays; the edge's effects come before those of the handler. */
  ghost predicate MatchLeg<C>(m: Machine, x: Match, attempt: Attempt<C>, told: seq<string>, leg: Leg) {
    && attempt.Succeeded? && leg.source == x.source && leg.first == [] && leg.own == x.edge.effects + told
    && (var ref := match attempt.given case Some(r) => r case None => x.edge.target;
        if ref == "" then leg.passage.None? else leg.passage.Some? && leg.passage.value.ref == ref)
    && Takes(m, leg)
  }

  ghost predicate MatchLegs<C>(m: Machine, matches: seq<Match>, attempts: seq<Attempt<C>>, told: nat -> seq<string>, legs: seq<Leg>) {
    && |legs| == |attempts| <= |matches|
    && forall i :: 0 <= i < |legs| ==> MatchLeg(m, matches[i], attempts[i], told(i), legs[i])
  }

  /** The step of an `onDone`: it belongs to the deepest complete container, the first one in document
      order, and what its handler returned comes first. */
  ghost predicate DoneLeg(m: Machine, told: seq<string>, leg: Leg) {
    && Ready(m, leg.before, leg.source)
    && (forall p :: Ready(m, leg.before, p) ==>
          p == leg.source || |p| < |leg.source| || (|p| == |leg.source| && DocBefore(LiveRoot(m), leg.source, p)))
    && (var edge := NodeAt(LiveRoot(m), leg.source).value.onDone.value;
        && leg.first == told && leg.own == edge.effects
        && if edge.target == "" then leg.passage.None? else leg.passage.Some? && leg.passage.value.ref == edge.target)
    && Takes(m, leg)
  }

  /** The cascade from `v` to `w`: it goes on until nothing is complete, a step has no target, or the
      limit is reached. */
  ghost predicate DoneLegs(m: Machine, told: nat -> seq<string>, k: nat, limit: nat, v: StateValue, legs: seq<Leg>, w: StateValue)
    decreases limit
  {
    if limit == 0 then legs == [] && w == v
    else if legs == [] then w == v && forall p :: !Ready(m, v, p)
    else
      && legs[0].before == v && DoneLeg(m, told(k), legs[0])
      && if legs[0].passage.None? then |legs| == 1 && w == v
         else DoneLegs(m, told, k + 1, limit - 1, legs[0].after, legs[1..], w)
  }

  // ---- The steps of the matches ----

  lemma {:induction false} QueuedAppend(m: Machine, legs: seq<Leg>, x: Leg)
    ensures AllQueued(m, legs + [x]) == AllQueued(m, legs) + Queued(m, x)
    decreases |legs|
  {
    if legs == [] {
      assert [x][1..] == [] && [] + [x] == [x];
    } else {
      assert (legs + [x])[1..] == legs[1..] + [x];
      QueuedAppend(m, legs[1..], x);
    }
  }

  lemma {:induction false} LinkedAppend(legs: seq<Leg>, x: Leg, v: StateValue)
    requires Linked(legs, v, x.before)
    ensures Linked(legs + [x], v, x.after)
    decreases |legs|
  {
    if legs == [] {
      assert [x][1..] == [] && [] + [x] == [x];
    } else {
      assert (legs + [x])[1..] == legs[1..] + [x];
      LinkedAppend(legs[1..], x, legs[0].after);
    }
  }

  lemma StaysOf<C>(a: Actor, event: string, x: Match, attempt: Attempt<C>, told: seq<string>, now: Local<C>)
    requires Advance(a, event, x, attempt, now).Some? && Reference(x, attempt.given) == ""
    ensures Advance(a, event, x, attempt, now).value.value == now.value
    ensures StepEffects(a.m, x, attempt.given, told, now.value) == x.edge.effects + told
  {}

  lemma MovesOf<C>(a: Actor, event: string, x: Match, attempt: Attempt<C>, told: seq<string>, now: Local<C>) returns (applied: Applied)
    requires Advance(a, event, x, attempt, now).Some? && Reference(x, attempt.given) != ""
    ensures x.source != [] && ApplyTarget(a.m, now.value, x.source, Reference(x, attempt.given)) == Some(applied)
    ensures Advance(a, event, x, attempt, now).value.value == applied.next
    ensures StepEffects(a.m, x, attempt.given, told, now.value) == applied.exits + x.edge.effects + told + applied.entries
  {
    applied := ApplyTarget(a.m, now.value, x.source, Reference(x, attempt.given)).value;
  }

  ghost predicate OneLeg<C>(m: Machine, x: Match, attempt: Attempt<C>, told: seq<string>, v: StateValue, w: StateValue, effects: seq<string>, leg: Leg) {
    MatchLeg(m, x, attempt, told, leg) && leg.before == v && leg.after == w && Queued(m, leg) == effects
  }

  lemma LegOfPassage<C>(m: Machine, x: Match, attempt: Attempt<C>, told: seq<string>, v: StateValue, p: Passage, applied: Applied, leg: Leg)
    requires attempt.Succeeded? && Reference(x, attempt.given) == p.ref != "" && Passes(m, v, x.source, p, applied.next)
    requires applied.exits == Collect(Root(m), p.left, (n: Node) => n.exit)
    requires applied.entries == Collect(Root(m), p.entered, (n: Node) => n.entry)
    requires leg == Leg(x.source, v, [], Some(p), x.edge.effects + told, applied.next)
    ensures OneLeg(m, x, attempt, told, v, applied.next, applied.exits + x.edge.effects + told + applied.entries, leg)
  {
    NothingFirst(applied.exits, x.edge.effects, told, applied.entries);
    assert Takes(m, leg);
  }

  lemma Joined(a: seq<string>, b: seq<string>, c: seq<string>, d: seq<string>)
    ensures a + b + c + d == a + (b + c + d)
  {}

  lemma NothingFirst(a: seq<string>, b: seq<string>, c: seq<string>, d: seq<string>)
    ensures [] + a + (b + c) + d == a + b + c + d
  {}

  lemma MatchLegOf<C>(a: Actor, event: string, x: Match, attempt: Attempt<C>, told: seq<string>, now: Local<C>) returns (leg: Leg)
    requires Running(a.m, now.value) && ReadableRegions(LiveRoot(a.m)) && NodeAt(LiveRoot(a.m), x.source).Some?
    requires Advance(a, event, x, attempt, now).Some? && Running(a.m, Advance(a, event, x, attempt, now).value.value)
    ensures OneLeg(a.m, x, attempt, told, now.value, Advance(a, event, x, attempt, now).value.value,
                   StepEffects(a.m, x, attempt.given, told, now.value), leg)
  {
    var ref := Reference(x, attempt.given);
    assert attempt.Succeeded?;
    if ref == "" {
      StaysOf(a, event, x, attempt, told, now);
      leg := Leg(x.source, now.value, [], None, x.edge.effects + told, now.value);
      assert [] + (x.edge.effects + told) == x.edge.effects + told;
    } else {
      var applied := MovesOf(a, event, x, attempt, told, now);
      var p := PassageOf(a.m, now.value, x.source, ref);
      leg := Leg(x.source, now.value, [], Some(p), x.edge.effects + told, applied.next);
      LegOfPassage(a.m, x, attempt, told, now.value, p, applied, leg);
    }
  }

  lemma {:induction false} WellTurnedPrefix<C>(m: Machine, v: StateValue, matches: seq<Match>, attempts: seq<Attempt<C>>, k: nat)
    requires WellTurned(m, v, matches, attempts) && k <= |attempts|
    ensures WellTurned(m, v, matches, attempts[..k])
    decreases |attempts|
  {
    if k > 0 && matches != [] {
      var next := AfterTurn(m, v, matches[0], attempts[0]);
      assert attempts[..k][0] == attempts[0] && attempts[..k][1..] == attempts[1..][..k - 1];
      if next.Some? { WellTurnedPrefix(m, next.value, matches[1..], attempts[1..], k - 1); }
    }
  }

  lemma MatchLegsAppend<C>(m: Machine, matches: seq<Match>, attempts: seq<Attempt<C>>, x: Attempt<C>, told: nat -> seq<string>,
                           legs: seq<Leg>, v: StateValue, leg: Leg)
    requires MatchLegs(m, matches, attempts, told, legs) && Linked(legs, v, leg.before) && |attempts| < |matches|
    requires MatchLeg(m, matches[|attempts|], x, told(|attempts|), leg)
    ensures MatchLegs(m, matches, attempts + [x], told, legs + [leg]) && Linked(legs + [leg], v, leg.after)
    ensures AllQueued(m, legs + [leg]) == AllQueued(m, legs) + Queued(m, leg)
  {
    QueuedAppend(m, legs, leg);
    LinkedAppend(legs, leg, v);
    forall i | 0 <= i < |legs + [leg]| ensures MatchLeg(m, matches[i], (attempts + [x])[i], told(i), (legs + [leg])[i]) {
      if i < |legs| { assert MatchLeg(m, matches[i], attempts[i], told(i), legs[i]); }
    }
  }

  lemma PendingLast<C>(a: Actor, event: string, matches: seq<Match>, attempts: seq<Attempt<C>>, x: Attempt<C>, told: nat -> seq<string>, start: Local<C>)
    requires |attempts| < |matches| && x.Succeeded? && Work(a, event, matches, attempts, start).Some?
    ensures PendingEffects(a, event, matches, attempts + [x], told, start) == PendingEffects(a, event, matches, attempts, told, start)
      + StepEffects(a.m, matches[|attempts|], x.given, told(|attempts|), Work(a, event, matches, attempts, start).value.value)
  {
    assert (attempts + [x])[..|attempts|] == attempts;
  }

  /** The matches of a call whose turns are sound: what the loop collects is what these steps queue. */
  lemma {:induction false} MatchesTraced<C>(a: Actor, event: string, matches: seq<Match>, attempts: seq<Attempt<C>>, told: nat -> seq<string>, start: Local<C>)
    returns (legs: seq<Leg>)
    requires ReadableRegions(LiveRoot(a.m)) && WellTurned(a.m, start.value, matches, attempts)
    requires |attempts| <= |matches| && AllSucceed(attempts) && Work(a, event, matches, attempts, start).Some? && Existing(a.m, matches)
    ensures MatchLegs(a.m, matches, attempts, told, legs)
    ensures Linked(legs, start.value, Work(a, event, matches, attempts, start).value.value)
    ensures PendingEffects(a, event, matches, attempts, told, start) == AllQueued(a.m, legs)
    decreases |attempts|
  {
    if attempts == [] {
      legs := [];
    } else {
      var k := |attempts| - 1;
      var init := attempts[..k];
      assert init + [attempts[k]] == attempts;
      WorkExtends(a, event, matches, init, attempts[k], start);
      WellTurnedPrefix(a.m, start.value, matches, attempts, k);
      legs := MatchesTraced(a, event, matches, init, told, start);
      var before := Work(a, event, matches, init, start).value;
      WorkEndsWell(a, event, matches, init, start);
      WorkEndsWell(a, event, matches, attempts, start);
      var leg := MatchLegOf(a, event, matches[k], attempts[k], told(k), before);
      MatchLegsAppend(a.m, matches, init, attempts[k], told, legs, start.value, leg);
      PendingLast(a, event, matches, init, attempts[k], told, start);
      legs := legs + [leg];
    }
  }

  // ---- The steps of the cascade ----

  lemma PendingIs(m: Machine, v: StateValue)
    requires Running(m, v) && ReadableRegions(LiveRoot(m)) && FindPendingOnDone(m, v).Some?
    ensures var q := FindPendingOnDone(m, v).value;
      && q != [] && Ready(m, v, q) && PendingEdge(m, v) == NodeAt(LiveRoot(m), q).value.onDone.value
      && forall p :: Ready(m, v, p) ==>
           p == q || |p| < |q| || (|p| == |q| && DocBefore(LiveRoot(m), q, p))
  {
    var q := FindPendingOnDone(m, v).value;
    PendingIsDeepestComplete(m, v);
    forall p | Ready(m, v, p) && p != q && |p| == |q| ensures DocBefore(LiveRoot(m), q, p) { PendingIsFirst(m, v, p); }
    LiveLookup(m, q);
  }

  lemma TurnMoves(m: Machine, v: StateValue) returns (applied: Applied)
    requires FindPendingOnDone(m, v).Some? && PendingEdge(m, v).target != "" && TakeTurn(m, v).stop != Some(Unresolved)
    ensures FindPendingOnDone(m, v).value != []
    ensures ApplyTarget(m, v, FindPendingOnDone(m, v).value, PendingEdge(m, v).target) == Some(applied)
    ensures TakeTurn(m, v) == Turn(applied.next, applied.exits + PendingEdge(m, v).effects + applied.entries, None)
  {
    applied := ApplyTarget(m, v, FindPendingOnDone(m, v).value, PendingEdge(m, v).target).value;
  }

  lemma TurnStays(m: Machine, v: StateValue)
    requires FindPendingOnDone(m, v).Some? && PendingEdge(m, v).target == ""
    ensures TakeTurn(m, v) == Turn(v, PendingEdge(m, v).effects, Some(Untargeted))
  {}

  ghost predicate OneDone(m: Machine, v: StateValue, told: seq<string>, now: Turn, leg: Leg) {
    && DoneLeg(m, told, leg) && leg.before == v && leg.after == now.next
    && (leg.passage.None? <==> now.stop.Some?) && Queued(m, leg) == told + now.effects
  }

  lemma DoneOfPassage(m: Machine, v: StateValue, told: seq<string>, q: Path, p: Passage, applied: Applied, effects: seq<string>, leg: Leg)
    requires Passes(m, v, q, p, applied.next)
    requires applied.exits == Collect(Root(m), p.left, (n: Node) => n.exit)
    requires applied.entries == Collect(Root(m), p.entered, (n: Node) => n.entry)
    requires leg == Leg(q, v, told, Some(p), effects, applied.next)
    ensures Takes(m, leg) && Queued(m, leg) == told + (applied.exits + effects + applied.entries)
  {
    Joined(told, applied.exits, effects, applied.entries);
  }

  lemma DoneLegOf(m: Machine, v: StateValue, told: seq<string>) returns (leg: Leg)
    requires Running(m, v) && ReadableRegions(LiveRoot(m)) && FindPendingOnDone(m, v).Some?
    requires TakeTurn(m, v).stop != Some(Unresolved) && (TakeTurn(m, v).stop.None? ==> Running(m, TakeTurn(m, v).next))
    ensures OneDone(m, v, told, TakeTurn(m, v), leg)
  {
    var q := FindPendingOnDone(m, v).value;
    var edge := PendingEdge(m, v);
    PendingIs(m, v);
    if edge.target == "" {
      TurnStays(m, v);
      leg := Leg(q, v, told, None, edge.effects, v);
    } else {
      var applied := TurnMoves(m, v);
      var p := PassageOf(m, v, q, edge.target);
      leg := Leg(q, v, told, Some(p), edge.effects, applied.next);
      DoneOfPassage(m, v, told, q, p, applied, edge.effects, leg);
    }
  }

  lemma QuietTurn(m: Machine, v: StateValue)
    ensures FindPendingOnDone(m, v).None? <==> TakeTurn(m, v).stop == Some(Quiet)
  {}

  lemma RunsStep(turn: StateValue -> Turn, v: StateValue, limit: nat)
    requires limit > 0
    ensures HandlerRuns(Repeat(turn, v, limit)) ==
      if turn(v).stop.None? then 1 + HandlerRuns(Repeat(turn, turn(v).next, limit - 1)) else if turn(v).stop == Some(Untargeted) then 1 else 0
    ensures Repeat(turn, v, limit).value == if turn(v).stop.None? then Repeat(turn, turn(v).next, limit - 1).value else v
    ensures Repeat(turn, v, limit).stop == if turn(v).stop.None? then Repeat(turn, turn(v).next, limit - 1).stop else turn(v).stop.value
  {}

  lemma SomeStop(m: Machine, v: StateValue)
    ensures TakeTurn(m, v).stop.Some? ==> TakeTurn(m, v).stop.value in {Quiet, Untargeted, Unresolved}
  {}

  /** A cascade through sound configurations: what it collects is what these steps queue. */
  lemma {:induction false} CascadeTraced(m: Machine, turn: StateValue -> Turn, v: StateValue, limit: nat, told: nat -> seq<string>, k: nat)
    returns (legs: seq<Leg>)
    requires ReadableRegions(LiveRoot(m)) && WellCascade(m, v, limit)
    requires forall x {:trigger TakeTurn(m, x)} :: turn(x) == TakeTurn(m, x)
    requires Repeat(turn, v, limit).stop != Unresolved
    ensures DoneLegs(m, told, k, limit, v, legs, Repeat(turn, v, limit).value)
    ensures RepeatEffects(turn, v, limit, told, k) == AllQueued(m, legs) && |legs| == HandlerRuns(Repeat(turn, v, limit))
    decreases limit
  {
    legs := [];
    if limit > 0 {
      var now := TakeTurn(m, v);
      assert turn(v) == now;
      RunsStep(turn, v, limit);
      SomeStop(m, v);
      QuietTurn(m, v);
      if now.stop == Some(Quiet) {
        PendingIsDeepestComplete(m, v);
      } else {
        var leg := DoneLegOf(m, v, told(k));
        if now.stop.None? { legs := CascadeTraced(m, turn, now.next, limit - 1, told, k + 1); }
        assert ([leg] + legs)[1..] == legs;
        legs := [leg] + legs;
      }
    }
  }

  // ---- The whole call ----

  /** The steps of a call up to `middle`, and those after it: its cascade, or its fallback. */
  datatype Trace = Trace(first: seq<Leg>, middle: StateValue, last: seq<Leg>)

  /** The guards of a call: it starts from a running configuration, and each of its targets is safe
      where it is taken. Region-local targets are. */
  ghost predicate Guarded<C>(m: Machine, v: StateValue, event: string, attempts: seq<Attempt<C>>) {
    var matches := ResolveTransitions(m, v, event);
    && Running(m, v) && ReadableRegions(LiveRoot(m)) && SafeTurns(m, v, matches, attempts)
    && (AllSucceed(attempts) && AfterTurns(m, v, matches, attempts).Some? ==>
          SafeCascade(m, AfterTurns(m, v, matches, attempts).value, 20))
  }

  /** A successful call that leads from `v` to `w`: one step for each match, in their order, then the
      cascade of at most 20 steps, which asks `dones` handlers. */
  ghost predicate TracedSuccess<C>(m: Machine, v: StateValue, event: string, attempts: seq<Attempt<C>>, told: nat -> seq<string>,
                                   doneTold: nat -> seq<string>, dones: nat, w: StateValue, effects: seq<string>, trace: Trace) {
    var matches := ResolveTransitions(m, v, event);
    && |attempts| == |matches| && MatchLegs(m, matches, attempts, told, trace.first) && Linked(trace.first, v, trace.middle)
    && DoneLegs(m, doneTold, 0, 20, trace.middle, trace.last, w) && |trace.last| == dones
    && effects == AllQueued(m, trace.first) + AllQueued(m, trace.last)
  }

  /** A failed call: its last attempt takes the fallback from where the others have led, and only the exits
      and entries of that transition are queued. */
  ghost predicate TracedFallback<C>(m: Machine, v: StateValue, event: string, attempts: seq<Attempt<C>>, told: nat -> seq<string>,
                                    w: StateValue, effects: seq<string>, trace: Trace) {
    var matches := ResolveTransitions(m, v, event);
    && 0 < |attempts| <= |matches| && attempts[|attempts| - 1].Failed?
    && MatchLegs(m, matches, attempts[..|attempts| - 1], told, trace.first) && Linked(trace.first, v, trace.middle)
    && |trace.last| == 1 && var leg := trace.last[0];
    && leg.source == matches[|attempts| - 1].source && leg.before == trace.middle && leg.after == w
    && leg.passage.Some? && leg.passage.value.ref == attempts[|attempts| - 1].fallback
    && Passes(m, trace.middle, leg.source, leg.passage.value, w)
    && effects == Collect(Root(m), leg.passage.value.left, (n: Node) => n.exit) + Collect(Root(m), leg.passage.value.entered, (n: Node) => n.entry)
  }

  lemma SuccessEffects<C>(a: Actor, base: Row<C>, event: string, attempts: seq<Attempt<C>>, told: nat -> seq<string>, doneTold: nat -> seq<string>, now: Local<C>)
    requires |attempts| <= |ResolveTransitions(a.m, base.state, event)| && AllSucceed(attempts)
    requires Work(a, event, ResolveTransitions(a.m, base.state, event), attempts, Calls.Before(base)) == Some(now)
    ensures CallEffects(a, base, event, attempts, told, doneTold)
      == PendingEffects(a, event, ResolveTransitions(a.m, base.state, event), attempts, told, Calls.Before(base))
         + CascadeEffects(a.m, now.value, 20, doneTold)
  {
    assert CascadeLimit == 20;
  }

  lemma WholeCascadeTraced(m: Machine, v: StateValue, told: nat -> seq<string>) returns (legs: seq<Leg>)
    requires ReadableRegions(LiveRoot(m)) && WellCascade(m, v, 20) && Cascade(m, v, 20).stop != Unresolved
    ensures DoneLegs(m, told, 0, 20, v, legs, Cascade(m, v, 20).value)
    ensures CascadeEffects(m, v, 20, told) == AllQueued(m, legs) && |legs| == HandlerRuns(Cascade(m, v, 20))
  {
    forall x {:trigger TakeTurn(m, x)} ensures Completion.Turns(m)(x) == TakeTurn(m, x) {}
    legs := CascadeTraced(m, Completion.Turns(m), v, 20, told, 0);
  }

  /** The guards give sound configurations between the steps. */
  lemma GuardedIsWell<C>(a: Actor, base: Row<C>, event: string, attempts: seq<Attempt<C>>, now: Local<C>)
    requires Guarded(a.m, base.state, event, attempts) && AllSucceed(attempts) && |attempts| <= |ResolveTransitions(a.m, base.state, event)|
    requires Work(a, event, ResolveTransitions(a.m, base.state, event), attempts, Calls.Before(base)) == Some(now)
    ensures Existing(a.m, ResolveTransitions(a.m, base.state, event))
    ensures WellTurned(a.m, base.state, ResolveTransitions(a.m, base.state, event), attempts) && WellCascade(a.m, now.value, 20)
  {
    var matches := ResolveTransitions(a.m, base.state, event);
    MatchesAreSpread(a.m, base.state, event);
    CallIsWellFormedIff(a.m, base.state, matches, attempts);
    WorkEndsWell(a, event, matches, attempts, Calls.Before(base));
    CascadeIsWellFormedIff(a.m, now.value, 20);
  }

  /** Main result on the effects of a successful call. */
  lemma SuccessIsTraced<C>(a: Actor, base: Row<C>, event: string, attempts: seq<Attempt<C>>, told: nat -> seq<string>, doneTold: nat -> seq<string>, now: Local<C>)
    returns (trace: Trace)
    requires Guarded(a.m, base.state, event, attempts) && AllSucceed(attempts) && |attempts| == |ResolveTransitions(a.m, base.state, event)|
    requires Work(a, event, ResolveTransitions(a.m, base.state, event), attempts, Calls.Before(base)) == Some(now)
    requires Cascade(a.m, now.value, 20).stop != Unresolved
    ensures TracedSuccess(a.m, base.state, event, attempts, told, doneTold, HandlerRuns(Cascade(a.m, now.value, 20)),
                          Cascade(a.m, now.value, 20).value, CallEffects(a, base, event, attempts, told, doneTold), trace)
  {
    GuardedIsWell(a, base, event, attempts, now);
    SuccessEffects(a, base, event, attempts, told, doneTold, now);
    var first := MatchesTraced(a, event, ResolveTransitions(a.m, base.state, event), attempts, told, Calls.Before(base));
    var last := WholeCascadeTraced(a.m, now.value, doneTold);
    trace := Trace(first, now.value, last);
  }

  lemma {:induction false} WorkSucceeds<C>(a: Actor, event: string, matches: seq<Match>, attempts: seq<Attempt<C>>, start: Local<C>)
    requires |attempts| <= |matches| && Work(a, event, matches, attempts, start).Some?
    ensures AllSucceed(attempts)
    decreases |attempts|
  {
    if attempts != [] {
      WorkUnfolds(a, event, matches, attempts, start);
      WorkSucceeds(a, event, matches[1..], attempts[1..], Advance(a, event, matches[0], attempts[0], start).value);
      forall i | 0 <= i < |attempts| ensures attempts[i].Succeeded? { if i > 0 { assert attempts[i] == attempts[1..][i - 1]; } }
    }
  }

  /** The matches up to the failed attempt. */
  lemma BeforeFallback<C>(a: Actor, base: Row<C>, event: string, attempts: seq<Attempt<C>>, told: nat -> seq<string>, middle: StateValue)
    returns (first: seq<Leg>)
    requires FailsLast(a, base, event, attempts) && Guarded(a.m, base.state, event, attempts)
    requires UntilFailure(a, base, event, attempts).Some? && middle == UntilFailure(a, base, event, attempts).value.value
    ensures MatchLegs(a.m, ResolveTransitions(a.m, base.state, event), attempts[..|attempts| - 1], told, first)
    ensures Linked(first, base.state, middle) && Running(a.m, middle)
    ensures ResolveTransitions(a.m, base.state, event)[|attempts| - 1].source != []
  {
    var matches := ResolveTransitions(a.m, base.state, event);
    var start := Calls.Before(base);
    var k := |attempts| - 1;
    MatchesAreSpread(a.m, base.state, event);
    CallIsWellFormedIff(a.m, base.state, matches, attempts);
    WellTurnedPrefix(a.m, base.state, matches, attempts, k);
    WorkEndsWell(a, event, matches, attempts[..k], start);
    WorkSucceeds(a, event, matches, attempts[..k], start);
    first := MatchesTraced(a, event, matches, attempts[..k], told, start);
  }

  lemma FallbackEndsWell<C>(a: Actor, base: Row<C>, event: string, attempts: seq<Attempt<C>>)
    requires FailsLast(a, base, event, attempts) && Guarded(a.m, base.state, event, attempts)
    requires UntilFailure(a, base, event, attempts).Some?
    ensures var k := |attempts| - 1;
      var r := Reached(a.m, UntilFailure(a, base, event, attempts).value.value, ResolveTransitions(a.m, base.state, event)[k].source, attempts[k].fallback);
      r.Some? ==> Running(a.m, r.value)
    ensures NodeAt(LiveRoot(a.m), ResolveTransitions(a.m, base.state, event)[|attempts| - 1].source).Some?
  {
    var matches := ResolveTransitions(a.m, base.state, event);
    MatchesAreSpread(a.m, base.state, event);
    CallIsWellFormedIff(a.m, base.state, matches, attempts);
    FailureEndsWell(a, event, matches, attempts, Calls.Before(base));
  }

  /** Main result on the effects of a failed call. */
  lemma FallbackIsTraced<C>(a: Actor, base: Row<C>, event: string, attempts: seq<Attempt<C>>, told: nat -> seq<string>, middle: StateValue, w: StateValue)
    returns (trace: Trace)
    requires FailsLast(a, base, event, attempts) && Guarded(a.m, base.state, event, attempts)
    requires UntilFailure(a, base, event, attempts).Some? && middle == UntilFailure(a, base, event, attempts).value.value
    requires var k := |attempts| - 1;
      Reached(a.m, middle, ResolveTransitions(a.m, base.state, event)[k].source, attempts[k].fallback) == Some(w)
    ensures TracedFallback(a.m, base.state, event, attempts, told, w, FallbackEffects(a, base, event, attempts), trace)
  {
    var k := |attempts| - 1;
    var source := ResolveTransitions(a.m, base.state, event)[k].source;
    FallbackEndsWell(a, base, event, attempts);
    var first := BeforeFallback(a, base, event, attempts, told, middle);
    var p := PassageOf(a.m, middle, source, attempts[k].fallback);
    trace := Trace(first, middle, [Leg(source, middle, [], Some(p), [], w)]);
  }

  /** What a call queues: every call that ends has this trace, if it met its guards. */
  ghost predicate Traced<C>(m: Machine, v: StateValue, event: string, attempts: seq<Attempt<C>>, told: nat -> seq<string>,
                            doneTold: nat -> seq<string>, dones: nat, w: StateValue, effects: seq<string>, trace: Trace) {
    Guarded(m, v, event, attempts) ==>
      if AllSucceed(attempts) then TracedSuccess(m, v, event, attempts, told, doneTold, dones, w, effects, trace)
      else TracedFallback(m, v, event, attempts, told, w, effects, trace)
  }

  /** The attempts all succeeded and the cascade has led to `w`. */
  ghost predicate SettledAt<C>(a: Actor, base: Row<C>, event: string, attempts: seq<Attempt<C>>, dones: nat, w: StateValue) {
    var matches := ResolveTransitions(a.m, base.state, event);
    var now := Work(a, event, matches, attempts, Calls.Before(base));
    && AllSucceed(attempts) && |attempts| == |matches| && now.Some?
    && var c := Cascade(a.m, now.value.value, CascadeLimit); c.stop != Unresolved && c.value == w && HandlerRuns(c) == dones
  }

  /** The last attempt failed and its fallback has led to `w`. */
  ghost predicate FellTo<C>(a: Actor, base: Row<C>, event: string, attempts: seq<Attempt<C>>, w: StateValue) {
    && FailsLast(a, base, event, attempts) && UntilFailure(a, base, event, attempts).Some?
    && var k := |attempts| - 1;
       Reached(a.m, UntilFailure(a, base, event, attempts).value.value,
               ResolveTransitions(a.m, base.state, event)[k].source, attempts[k].fallback) == Some(w)
  }

  lemma CallIsTraced<C>(a: Actor, base: Row<C>, event: string, attempts: seq<Attempt<C>>, told: nat -> seq<string>, doneTold: nat -> seq<string>,
                         dones: nat, w: StateValue)
    returns (trace: Trace)
    requires |attempts| <= |ResolveTransitions(a.m, base.state, event)|
    requires SettledAt(a, base, event, attempts, dones, w) || FellTo(a, base, event, attempts, w)
    ensures Traced(a.m, base.state, event, attempts, told, doneTold, dones, w, CallEffects(a, base, event, attempts, told, doneTold), trace)
  {
    trace := Trace([], w, []);
    if Guarded(a.m, base.state, event, attempts) {
      if AllSucceed(attempts) {
        assert CascadeLimit == 20;
        var now := Work(a, event, ResolveTransitions(a.m, base.state, event), attempts, Calls.Before(base)).value;
        trace := SuccessIsTraced(a, base, event, attempts, told, doneTold, now);
      } else {
        trace := FallbackIsTraced(a, base, event, attempts, told, UntilFailure(a, base, event, attempts).value.value, w);
      }
    }
  }
}
