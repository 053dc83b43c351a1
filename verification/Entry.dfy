/** Entering a state (engine/statechart.ts, enterSubtree and resolveInitialState). */
module Entry {
  import opened Records
  import opened Machines
  import opened PathLists
  import opened Configurations

  /** What entering a node contributes: its own value (none for a leaf, whose key the parent
      holds) and the entry effects in the order they run. */
  datatype Entered = Entered(sub: Option<StateValue>, effects: seq<string>)

  function EnterSubtree(n: Node): Entered
    decreases n, 1
  {
    match n.kind
    case Compound => (
      match Child(n, n.initial)
      case None => Entered(None, n.entry)
      case Some(c) =>
        var e := EnterSubtree(c);
        Entered(Some(Branch(n.initial, e.sub)), n.entry + e.effects))
    case Parallel =>
      var (regions, effects) := EnterRegions(n.states);
      Entered(Some(Obj(regions)), n.entry + effects)
    case _ => Entered(None, n.entry)
  }

  /** All regions, in declaration order. */
  function EnterRegions(regions: Record<Node>): (Record<StateValue>, seq<string>)
    decreases regions, 0
  {
    match regions
    case Empty => (Empty, [])
    case Field(k, r, rest) =>
      var e := EnterSubtree(r);
      var (fields, effects) := EnterRegions(rest);
      (Field(k, if e.sub.None? then Leaf(k) else e.sub.value, fields), e.effects + effects)
  }

  /** How a compound parent records an active child. */
  function Branch(key: string, sub: Option<StateValue>): StateValue {
    if sub.None? then Leaf(key) else Obj(Field(key, sub.value, Empty))
  }

  function SkipImplicitError(regions: Record<Node>): Record<Node> {
    match regions
    case Empty => Empty
    case Field(k, r, rest) =>
      if r.implicitError then SkipImplicitError(rest) else Field(k, r, SkipImplicitError(rest))
  }

  /** The root as configurations see it: a parallel root has no region for the injected `error`. */
  function LiveRoot(m: Machine): Node {
    if m.kind == Parallel then Root(m).(states := SkipImplicitError(m.states)) else Root(m)
  }

  /** A machine that passed validation, with at least one state besides an injected `error`. */
  ghost predicate ValidTree(m: Machine) {
    && !IsLeaf(Root(m)) && WellShaped(Root(m))
    && LiveRoot(m).states.Field?
  }

  lemma {:induction false} SkipKeeps(regions: Record<Node>, key: string)
    requires DistinctKeys(regions) && AllWellShaped(regions)
    ensures DistinctKeys(SkipImplicitError(regions)) && AllWellShaped(SkipImplicitError(regions))
    ensures Get(SkipImplicitError(regions), key) ==
      if Has(regions, key) && !Get(regions, key).value.implicitError then Get(regions, key) else None
  {
    match regions
    case Empty =>
    case Field(k, _, rest) =>
      SkipKeeps(rest, k);
      SkipKeeps(rest, key);
  }

  lemma LiveRootShape(m: Machine)
    requires ValidTree(m)
    ensures WellShaped(LiveRoot(m)) && LiveRoot(m).kind == m.kind
  {
    SkipKeeps(m.states, "");
  }

  /** The live tree is the machine's own, except for the injected region. */
  lemma LiveLookup(m: Machine, p: Path)
    requires ValidTree(m) && p != []
    ensures NodeAt(LiveRoot(m), p) ==
      if m.kind == Parallel && Has(m.states, p[0]) && Get(m.states, p[0]).value.implicitError then None
      else GetNodeByPath(m, p)
  {
    SkipKeeps(m.states, p[0]);
  }

  function ResolveInitialState(m: Machine): Option<(StateValue, seq<string>)> {
    if m.kind == Parallel then
      var (fields, effects) := EnterRegions(SkipImplicitError(m.states));
      Some((Obj(fields), effects))
    else match Get(m.states, m.initial)
      case None => None
      case Some(c) =>
        var e := EnterSubtree(c);
        Some((Branch(m.initial, e.sub), e.effects))
  }

  /** The nodes entered below and including `n`, parents first. */
  function EnteredPaths(n: Node): seq<Path>
    decreases n, 1
  {
    match n.kind
    case Compound => (
      match Child(n, n.initial)
      case None => [[]]
      case Some(c) => [[]] + Under(n.initial, EnteredPaths(c)))
    case Parallel => [[]] + EnteredRegions(n.states)
    case _ => [[]]
  }

  function EnteredRegions(regions: Record<Node>): seq<Path>
    decreases regions, 0
  {
    match regions
    case Empty => []
    case Field(k, r, rest) => Under(k, EnteredPaths(r)) + EnteredRegions(rest)
  }

  /** Entering a container gives a well-formed value whose active paths are the entered ones;
      entering a leaf leaves its key to the parent. */
  lemma {:induction false} EnterIsWellFormed(n: Node)
    requires WellShaped(n)
    ensures IsLeaf(n) <==> EnterSubtree(n).sub.None?
    ensures !IsLeaf(n) ==> Wf(n, EnterSubtree(n).sub.value)
    decreases n, 1
  {
    if n.kind == Compound {
      var c := Child(n, n.initial).value;
      WellShapedChild(n.states, n.initial);
      EnterIsWellFormed(c);
    } else if n.kind == Parallel {
      EnterRegionsWellFormed(n.states);
    }
  }

  lemma {:induction false} EnterRegionsWellFormed(regions: Record<Node>)
    requires AllWellShaped(regions)
    ensures WfRegions(regions, EnterRegions(regions).0)
    decreases regions, 0
  {
    match regions
    case Empty =>
    case Field(_, r, rest) =>
      EnterIsWellFormed(r);
      EnterRegionsWellFormed(rest);
  }

  lemma {:induction false} EnteredAreActive(n: Node, p: Path)
    requires WellShaped(n) && !IsLeaf(n)
    ensures p in EnteredPaths(n) <==> IsActive(n, EnterSubtree(n).sub.value, p)
    decreases n, 1
  {
    if p == [] {
      assert EnteredPaths(n)[0] == p;
    } else if n.kind == Compound {
      var c := Child(n, n.initial).value;
      WellShapedChild(n.states, n.initial);
      EnterIsWellFormed(c);
      UnderMember(n.initial, EnteredPaths(c), p);
      if !IsLeaf(c) { EnteredAreActive(c, p[1..]); }
    } else {
      EnteredRegionsAreActive(n.states, p);
    }
  }

  lemma {:induction false} EnteredRegionsAreActive(regions: Record<Node>, p: Path)
    requires AllWellShaped(regions) && DistinctKeys(regions) && p != []
    ensures p in EnteredRegions(regions) <==>
      Has(regions, p[0]) && Has(EnterRegions(regions).0, p[0]) &&
      (if IsLeaf(Get(regions, p[0]).value) then |p| == 1
       else IsActive(Get(regions, p[0]).value, Get(EnterRegions(regions).0, p[0]).value, p[1..]))
    decreases regions, 0
  {
    match regions
    case Empty =>
    case Field(k, r, rest) =>
      UnderMember(k, EnteredPaths(r), p);
      EnteredRegionsAreActive(rest, p);
      EnterIsWellFormed(r);
      assert p in EnteredRegions(regions) <==> p in Under(k, EnteredPaths(r)) || p in EnteredRegions(rest);
      if p[0] == k {
        if IsLeaf(r) {
          assert EnteredPaths(r)[0] == [];
          assert p[1..] in EnteredPaths(r) <==> p[1..] == [];
        } else {
          EnteredAreActive(r, p[1..]);
        }
      }
  }

  /** The entry effects are the entry lists of the entered nodes, in their order. */
  lemma {:induction false} EnterEffects(n: Node)
    requires WellShaped(n)
    ensures EnterSubtree(n).effects == Collect(n, EnteredPaths(n), EntryList)
    decreases n, 1
  {
    assert NodeAt(n, []) == Some(n);
    if n.kind == Compound && Child(n, n.initial).Some? {
      var c := Child(n, n.initial).value;
      WellShapedChild(n.states, n.initial);
      EnterEffects(c);
      CollectAppend(n, [[]], Under(n.initial, EnteredPaths(c)), EntryList);
      CollectUnder(n, n.initial, EnteredPaths(c), EntryList);
    } else if n.kind == Parallel {
      CollectAppend(n, [[]], EnteredRegions(n.states), EntryList);
      EnterRegionsEffects(n, n.states);
    }
  }

  lemma {:induction false} EnterRegionsEffects(n: Node, regions: Record<Node>)
    requires AllWellShaped(regions) && DistinctKeys(regions)
    requires forall k :: Has(regions, k) ==> Get(n.states, k) == Get(regions, k)
    ensures EnterRegions(regions).1 == Collect(n, EnteredRegions(regions), EntryList)
    decreases regions, 0
  {
    match regions
    case Empty =>
    case Field(k, r, rest) =>
      assert Has(regions, k);
      EnterEffects(r);
      CollectUnder(n, k, EnteredPaths(r), EntryList);
      CollectAppend(n, Under(k, EnteredPaths(r)), EnteredRegions(rest), EntryList);
      EnterRegionsEffects(n, rest);
  }

  /** No node is entered twice, and none before its parent. */
  lemma {:induction false} EnteredInOrder(n: Node)
    requires WellShaped(n)
    ensures NoDup(EnteredPaths(n)) && ParentsFirst(EnteredPaths(n)) && EnteredPaths(n)[0] == []
    decreases n, 1
  {
    if n.kind == Compound {
      var c := Child(n, n.initial).value;
      WellShapedChild(n.states, n.initial);
      EnteredInOrder(c);
      AppendUnder([[]], n.initial, EnteredPaths(c));
    } else if n.kind == Parallel {
      EnteredRegionsInOrder([[]], n.states);
    }
  }

  lemma {:induction false} EnteredRegionsInOrder(before: seq<Path>, regions: Record<Node>)
    requires AllWellShaped(regions) && DistinctKeys(regions)
    requires NoDup(before) && ParentsFirst(before) && |before| > 0 && before[0] == []
    requires forall p :: p in before && p != [] ==> !Has(regions, p[0])
    ensures NoDup(before + EnteredRegions(regions)) && ParentsFirst(before + EnteredRegions(regions))
    decreases regions, 0
  {
    match regions
    case Empty => assert before + [] == before;
    case Field(k, r, rest) =>
      EnteredInOrder(r);
      forall p | p in before && p != [] ensures p[0] != k { assert !Has(regions, p[0]); }
      AppendUnder(before, k, EnteredPaths(r));
      var next := before + Under(k, EnteredPaths(r));
      forall p | p in next && p != [] ensures !Has(rest, p[0]) {
        UnderMember(k, EnteredPaths(r), p);
      }
      EnteredRegionsInOrder(next, rest);
      assert before + EnteredRegions(regions) == next + EnteredRegions(rest);
  }

  lemma AppendUnder(before: seq<Path>, key: string, ps: seq<Path>)
    requires NoDup(before) && ParentsFirst(before) && |before| > 0 && before[0] == []
    requires NoDup(ps) && ParentsFirst(ps)
    requires forall p :: p in before && p != [] ==> p[0] != key
    ensures NoDup(before + Under(key, ps)) && ParentsFirst(before + Under(key, ps))
  {
    var all := before + Under(key, ps);
    forall i | 0 <= i < |all| ensures ParentBefore(all, i) {
      ParentStaysBefore(before, key, ps, i);
    }
    forall i, j | 0 <= i < j < |all| ensures all[i] != all[j] {
      StaysDistinct(before, key, ps, i, j);
    }
  }

  lemma StaysDistinct(before: seq<Path>, key: string, ps: seq<Path>, i: nat, j: nat)
    requires NoDup(before) && NoDup(ps) && i < j < |before| + |ps|
    requires forall p :: p in before && p != [] ==> p[0] != key
    ensures (before + Under(key, ps))[i] != (before + Under(key, ps))[j]
  {
    if j < |before| {
    } else if i < |before| {
      assert before[i] in before && ([key] + ps[j - |before|])[0] == key;
    } else {
      assert ([key] + ps[i - |before|])[1..] == ps[i - |before|];
      assert ([key] + ps[j - |before|])[1..] == ps[j - |before|];
    }
  }

  lemma ParentStaysBefore(before: seq<Path>, key: string, ps: seq<Path>, i: nat)
    requires ParentsFirst(before) && |before| > 0 && before[0] == [] && ParentsFirst(ps)
    requires i < |before| + |ps|
    ensures ParentBefore(before + Under(key, ps), i)
  {
    var all := before + Under(key, ps);
    if i < |before| {
      assert ParentBefore(before, i);
      if before[i] != [] {
        var e :| 0 <= e < i && IsParent(before[e], before[i]);
        assert IsParent(all[e], all[i]);
      }
    } else {
      var j := i - |before|;
      assert ParentBefore(ps, j);
      assert all[i] == [key] + ps[j];
      if ps[j] == [] {
        assert IsParent(all[0], all[i]);
      } else {
        var e :| 0 <= e < j && IsParent(ps[e], ps[j]);
        assert all[|before| + e] == [key] + ps[e];
        assert IsParent(all[|before| + e], all[i]);
      }
    }
  }

  // ---- Which nodes are entered ----

  /** From `n`, the path takes the initial child of every compound node, and any region of every
      parallel one. */
  ghost predicate FollowsInitial(n: Node, p: Path) {
    NodeAt(n, p).Some? && forall i :: 0 <= i < |p| ==> InitialStep(n, p, i)
  }

  ghost predicate InitialStep(n: Node, p: Path, i: nat)
    requires i < |p|
  {
    var a := NodeAt(n, p[..i]);
    a.Some? && (a.value.kind == Parallel || (a.value.kind == Compound && p[i] == a.value.initial))
  }

  lemma {:induction false} FollowsFirst(n: Node, p: Path)
    requires p != [] && NodeAt(n, p).Some?
    ensures FollowsInitial(n, p) <==>
      (n.kind == Parallel || (n.kind == Compound && p[0] == n.initial)) && FollowsInitial(Get(n.states, p[0]).value, p[1..])
  {
    var c := Get(n.states, p[0]).value;
    assert p[..0] == [];
    forall i | 0 < i < |p| ensures InitialStep(n, p, i) <==> InitialStep(c, p[1..], i - 1) {
      assert p[..i][0] == p[0] && p[..i][1..] == p[1..][..i - 1];
    }
    if FollowsInitial(n, p) {
      assert InitialStep(n, p, 0);
      forall i | 0 <= i < |p[1..]| ensures InitialStep(c, p[1..], i) { assert InitialStep(n, p, i + 1); }
    }
    if (n.kind == Parallel || (n.kind == Compound && p[0] == n.initial)) && FollowsInitial(c, p[1..]) {
      forall i | 0 <= i < |p| ensures InitialStep(n, p, i) {
        if i > 0 { assert InitialStep(c, p[1..], i - 1); }
      }
    }
  }

  /** Main result: exactly these nodes are entered. */
  lemma {:induction false} EnteredFollow(n: Node, p: Path)
    requires WellShaped(n)
    ensures p in EnteredPaths(n) <==> FollowsInitial(n, p)
    decreases n, 1
  {
    if p == [] {
      assert EnteredPaths(n)[0] == p;
    } else {
      if NodeAt(n, p).Some? { FollowsFirst(n, p); }
      if n.kind == Compound {
        var c := Child(n, n.initial).value;
        WellShapedChild(n.states, n.initial);
        UnderMember(n.initial, EnteredPaths(c), p);
        assert p in EnteredPaths(n) <==> p in Under(n.initial, EnteredPaths(c));
        if p[0] == n.initial { EnteredFollow(c, p[1..]); }
      } else if n.kind == Parallel {
        assert p in EnteredPaths(n) <==> p in EnteredRegions(n.states);
        EnteredRegionsFollow(n.states, p);
      }
    }
  }

  lemma {:induction false} EnteredRegionsFollow(regions: Record<Node>, p: Path)
    requires AllWellShaped(regions) && DistinctKeys(regions) && p != []
    ensures p in EnteredRegions(regions) <==> Has(regions, p[0]) && FollowsInitial(Get(regions, p[0]).value, p[1..])
    decreases regions, 0
  {
    match regions
    case Empty =>
    case Field(k, r, rest) =>
      UnderMember(k, EnteredPaths(r), p);
      assert p in EnteredRegions(regions) <==> p in Under(k, EnteredPaths(r)) || p in EnteredRegions(rest);
      EnteredRegionsFollow(rest, p);
      if p[0] == k { EnteredFollow(r, p[1..]); }
  }

  /** Main result on the start: the initial configuration is well formed, its active nodes are exactly
      those reached from the root by initial children and live regions, and its effects are their
      entry lists, parents first. `order` is the order of entry. */
  lemma {:induction false} InitialFollows(m: Machine) returns (order: seq<Path>)
    requires ValidTree(m)
    ensures ResolveInitialState(m).Some?
    ensures var (v, effects) := ResolveInitialState(m).value;
      && Wf(LiveRoot(m), v)
      && (forall p :: IsActive(LiveRoot(m), v, p) <==> FollowsInitial(LiveRoot(m), p))
      && effects == Collect(LiveRoot(m), order, (n: Node) => n.entry)
    ensures NoDup(order) && ParentsFirst([[]] + order)
    ensures forall p :: p in order <==> p != [] && FollowsInitial(LiveRoot(m), p)
  {
    var root := LiveRoot(m);
    LiveRootShape(m);
    EnteredInOrder(root);
    order := EnteredPaths(root)[1..];
    assert EnteredPaths(root) == [[]] + order;
    InitialIsEntered(m);
    EnterIsWellFormed(root);
    forall p ensures IsActive(root, EnterSubtree(root).sub.value, p) <==> FollowsInitial(root, p) {
      EnteredAreActive(root, p);
      EnteredFollow(root, p);
    }
    forall p ensures p in order <==> p != [] && FollowsInitial(root, p) {
      EnteredFollow(root, p);
      if p in order { var i :| 0 <= i < |order| && order[i] == p; assert EnteredPaths(root)[i + 1] == p; }
    }
    EntryListIs(root, order);
  }

  /** Starting is entering the live root, which has no effects of its own. */
  lemma {:induction false} InitialIsEntered(m: Machine)
    requires ValidTree(m)
    ensures ResolveInitialState(m) == Some((EnterSubtree(LiveRoot(m)).sub.value, EnterSubtree(LiveRoot(m)).effects))
    ensures EnterSubtree(LiveRoot(m)).sub.Some?
    ensures EnterSubtree(LiveRoot(m)).effects == Collect(LiveRoot(m), EnteredPaths(LiveRoot(m))[1..], EntryList)
  {
    var root := LiveRoot(m);
    LiveRootShape(m);
    EnterIsWellFormed(root);
    EnterEffects(root);
    EnteredInOrder(root);
    var order := EnteredPaths(root)[1..];
    assert EnteredPaths(root) == [[]] + order;
    CollectAppend(root, [[]], order, EntryList);
    var top: seq<Path> := [[]];
    assert Collect(root, top, EntryList) == [] by { assert NodeAt(root, []) == Some(root) && top[1..] == []; }
    if m.kind == Compound {
      var e := EnterSubtree(Child(root, root.initial).value);
      assert [] + e.effects == e.effects;
    } else {
      assert [] + EnterRegions(root.states).1 == EnterRegions(root.states).1;
    }
  }

  lemma {:induction false} EntryListIs(n: Node, ps: seq<Path>)
    ensures Collect(n, ps, EntryList) == Collect(n, ps, (c: Node) => c.entry)
  {
    if ps != [] { EntryListIs(n, ps[1..]); }
  }
}
