/** Transitions as the engine applies them: the next configuration with its exit and entry
    effects (engine/statechart.ts, applyTargetTransition). */
module Engine {
  import opened Records
  import opened Machines
  import opened PathLists
  import opened DotPaths
  import opened Configurations
  import opened Entry
  import opened Leaves
  import opened Transitions
  import opened Validation

  datatype Applied = Applied(target: Path, next: StateValue, exits: seq<string>, entries: seq<string>)

  /** The nodes exited below `prefix`, in the order their exit effects run. */
  function ExitPaths(m: Machine, cur: StateValue, prefix: Path): seq<Path> {
    ExitOrder(ActiveLeafPaths(m, cur, []), prefix, [])
  }

  /** The ancestors of the target that are entered before it. */
  function AncestorPaths(t: Path, c: nat): seq<Path>
    requires c < |t|
  {
    seq(|t| - 1 - c, i requires 0 <= i < |t| - 1 - c => t[..c + 1 + i])
  }

  function ApplyResolved(m: Machine, cur: StateValue, s: Path, t: Path): Applied
    requires s != [] && GetNodeByPath(m, t).Some?
  {
    var c := LcaLen(s, t);
    Applied(t,
            NextValue(m, cur, s, t),
            Collect(Root(m), ExitPaths(m, cur, s[..c + 1]), ExitList),
            Collect(Root(m), AncestorPaths(t, c), EntryList) + EnterSubtree(GetNodeByPath(m, t).value).effects)
  }

  /** None when the reference does not resolve: the source throws. */
  function ApplyTarget(m: Machine, cur: StateValue, s: Path, ref: string): Option<Applied>
    requires s != []
  {
    match ResolveTarget(m, Join(s), ref)
    case None => None
    case Some(t) => ResolvedExists(m, Join(s), ref); Some(ApplyResolved(m, cur, s, t))
  }

  /** The machine and one of its well-formed configurations. */
  ghost predicate Running(m: Machine, cur: StateValue) {
    ValidTree(m) && Wf(LiveRoot(m), cur)
  }

  lemma LiveIsLocated(m: Machine)
    requires ValidTree(m)
    ensures Located(m, [], LiveRoot(m))
  {
    forall k | Has(LiveRoot(m).states, k)
      ensures GetNodeByPath(m, [] + [k]) == Get(LiveRoot(m).states, k)
    {
      LiveLookup(m, [k]);
      assert [k][1..] == [] && [] + [k] == [k];
    }
  }

  /** The string scan finds exactly the leaves of the configuration tree. */
  lemma LeavesOf(m: Machine, cur: StateValue, p: Path)
    requires Running(m, cur) && ReadableRegions(LiveRoot(m))
    ensures ActiveLeafPaths(m, cur, []) == TreeLeaves(LiveRoot(m), cur)
    ensures IsActive(LiveRoot(m), cur, p) <==> LeadsToLeaf(ActiveLeafPaths(m, cur, []), p)
  {
    LiveRootShape(m);
    LiveIsLocated(m);
    ReadableIsNow(LiveRoot(m), cur);
    ScanIsTree(m, LiveRoot(m), cur, []);
    var leaves := TreeLeaves(LiveRoot(m), cur);
    forall i | 0 <= i < |leaves| ensures [] + leaves[i] == leaves[i] {}
    assert Below([], leaves) == leaves;
    ActiveLeadsToLeaf(LiveRoot(m), cur, p);
  }

  /** On every running configuration, the scan finds exactly the leaves of the tree if and only if what
      is active is readable. */
  lemma ScanOfMachineIff(m: Machine, cur: StateValue)
    requires Running(m, cur)
    ensures ActiveLeafPaths(m, cur, []) == TreeLeaves(LiveRoot(m), cur) <==> ReadableNow(LiveRoot(m), cur)
  {
    LiveRootShape(m);
    LiveIsLocated(m);
    ScanIff(m, LiveRoot(m), cur, []);
    var leaves := TreeLeaves(LiveRoot(m), cur);
    forall i | 0 <= i < |leaves| ensures [] + leaves[i] == leaves[i] {}
    assert Below([], leaves) == leaves;
  }

  /** A leaf that is a region of its own: nothing inside its parallel state can go to it. */
  predicate LeafRegion(n: Node, t: Path) {
    && |t| > 1 && NodeAt(n, t).Some? && IsLeaf(NodeAt(n, t).value)
    && NodeAt(n, t[..|t| - 1]).Some? && NodeAt(n, t[..|t| - 1]).value.kind == Parallel
  }

  /** A target that stays local to the regions of its source: it is in the same region of every
      parallel node above it, and no region by itself. */
  ghost predicate LocalTo(n: Node, s: Path, t: Path) {
    RegionLocal(n, s, t) && !LeafRegion(n, t)
  }

  /** A local target is a state of the live tree, and no bare region. */
  lemma LocalShape(m: Machine, s: Path, t: Path)
    requires ValidTree(m)
    requires s != [] && NodeAt(LiveRoot(m), s).Some? && GetNodeByPath(m, t).Some? && LocalTo(LiveRoot(m), s, t)
    ensures NodeAt(LiveRoot(m), t).Some? && !BareRegion(LiveRoot(m), t, LcaLen(s, t))
  {
    var root := LiveRoot(m);
    var c := LcaLen(s, t);
    LiveRootShape(m);
    LiveLookup(m, t);
    LiveLookup(m, s);
    if m.kind == Parallel {
      assert NodeAt(root, t[..0]) == Some(root);
      assert s[..1] == t[..1];
      assert s[0] == s[..1][0] && t[0] == t[..1][0];
      SkipKeeps(m.states, s[0]);
    }
  }

  /** A region-local target is safe, if the common ancestor is still active. */
  lemma LocalIsSafe(m: Machine, cur: StateValue, s: Path, t: Path)
    requires Running(m, cur)
    requires s != [] && NodeAt(LiveRoot(m), s).Some? && GetNodeByPath(m, t).Some?
    requires IsActive(LiveRoot(m), cur, t[..LcaLen(s, t)])
    requires LocalTo(LiveRoot(m), s, t)
    ensures SafeTarget(m, cur, s, t)
  {
    var root := LiveRoot(m);
    var c := LcaLen(s, t);
    LiveRootShape(m);
    LocalShape(m, s, t);
    LocalMeansCompoundBelow(root, s, t);
    CompoundIsRebuildable(root, cur, t, c);
    RebuildableAbove(root, cur, t, 0, c);
  }

  /** The exact guard of a region-local target, for a source that may have been left: the common
      ancestor is active, or it was left for a leaf and every parallel ancestor of the target that
      is inactive has a single region. */
  lemma LocalIsSafeIff(m: Machine, cur: StateValue, s: Path, t: Path)
    requires Running(m, cur)
    requires s != [] && NodeAt(LiveRoot(m), s).Some? && GetNodeByPath(m, t).Some?
    requires LocalTo(LiveRoot(m), s, t)
    ensures NodeAt(LiveRoot(m), t).Some?
    ensures var c := LcaLen(s, t); var root := LiveRoot(m);
      Wf(root, NextValue(m, cur, s, t)) <==>
        IsActive(root, cur, t[..c]) || (MeetsLeaf(cur, t[..c]) && RebuildableFrom(root, cur, t, 0))
  {
    LocalShape(m, s, t);
    NextIsWellFormedIff(m, cur, s, t);
    if IsActive(LiveRoot(m), cur, t[..LcaLen(s, t)]) { LocalIsSafe(m, cur, s, t); }
  }

  /** The ancestors of an active source are active. */
  lemma ActiveSource(m: Machine, cur: StateValue, s: Path, t: Path)
    requires Running(m, cur) && s != [] && t != [] && IsActive(LiveRoot(m), cur, s)
    ensures NodeAt(LiveRoot(m), s).Some? && IsActive(LiveRoot(m), cur, t[..LcaLen(s, t)])
  {
    LiveRootShape(m);
    ActiveNode(LiveRoot(m), cur, s);
    ActivePrefix(LiveRoot(m), cur, s, LcaLen(s, t));
    assert s[..LcaLen(s, t)] == t[..LcaLen(s, t)];
  }

  lemma {:induction false} CompoundIsRebuildable(n: Node, cur: StateValue, t: Path, i: nat)
    requires WellShaped(n) && NodeAt(n, t).Some? && CompoundBelow(n, t, i)
    ensures RebuildableFrom(n, cur, t, i)
    decreases |t| - i
  {
    if i + 1 < |t| {
      AncestorShape(n, t, i + 1);
      CompoundIsRebuildable(n, cur, t, i + 1);
    }
  }

  /** Every path except those of length `top` comes after its parent. */
  ghost predicate TopDown(ps: seq<Path>, top: nat) {
    forall i :: 0 <= i < |ps| ==> |ps[i]| == top || exists e :: 0 <= e < i && IsParent(ps[e], ps[i])
  }

  lemma TargetsTopDown(n: Node, t: Path, c: nat)
    requires c < |t| && NodeAt(n, t).Some? && WellShaped(NodeAt(n, t).value)
    ensures TopDown(TargetPaths(n, t, c), c + 1)
  {
    var ps := TargetPaths(n, t, c);
    var inner := EnteredPaths(NodeAt(n, t).value);
    EnteredInOrder(NodeAt(n, t).value);
    var k := |t| - 1 - c;
    forall i | 0 <= i < |ps| ensures |ps[i]| == c + 1 || exists e :: 0 <= e < i && IsParent(ps[e], ps[i]) {
      if i < k {
        if i > 0 { assert ps[i][..|ps[i]| - 1] == ps[i - 1]; assert IsParent(ps[i - 1], ps[i]); }
      } else {
        var j := i - k;
        assert ps[i] == t + inner[j];
        if inner[j] == [] {
          if k > 0 { TargetItself(n, t, c, i, k); }
        } else {
          assert ParentBefore(inner, j);
          var e :| 0 <= e < j && IsParent(inner[e], inner[j]);
          assert ps[k + e] == t + inner[e];
          assert IsParent(ps[k + e], ps[i]);
        }
      }
    }
  }

  lemma TargetItself(n: Node, t: Path, c: nat, i: nat, k: nat)
    requires c < |t| && NodeAt(n, t).Some? && 0 < k == |t| - 1 - c <= i < |TargetPaths(n, t, c)|
    requires TargetPaths(n, t, c)[i] == t
    ensures k - 1 < i && IsParent(TargetPaths(n, t, c)[k - 1], TargetPaths(n, t, c)[i])
  {
    assert TargetPaths(n, t, c)[k - 1] == t[..|t| - 1];
  }

  lemma TargetsNoDup(n: Node, t: Path, c: nat)
    requires c < |t| && NodeAt(n, t).Some? && WellShaped(NodeAt(n, t).value)
    ensures NoDup(TargetPaths(n, t, c))
  {
    var ps := TargetPaths(n, t, c);
    var inner := EnteredPaths(NodeAt(n, t).value);
    EnteredInOrder(NodeAt(n, t).value);
    var k := |t| - 1 - c;
    forall i, j | 0 <= i < j < |ps| ensures ps[i] != ps[j] {
      if i < k {
        assert |ps[i]| == c + 1 + i;
        assert j < k ==> |ps[j]| == c + 1 + j;
        assert j >= k ==> |ps[j]| >= |t|;
      } else {
        assert ps[i][|t|..] == inner[i - k] && ps[j][|t|..] == inner[j - k];
      }
    }
  }

  /** Main result: a transition from an active source to a region-local target.
      - The next configuration is well formed, with the old active nodes that were not exited and
        the entered ones.
      - The exited nodes are the active ones below the source's branch of the common ancestor. Each
        is exited once: a leaf, or directly after one of its children.
      - The entered nodes are entered once, parents before children. */
  lemma TransitionLaw(m: Machine, cur: StateValue, s: Path, t: Path)
    requires Running(m, cur) && ReadableRegions(LiveRoot(m))
    requires s != [] && IsActive(LiveRoot(m), cur, s) && GetNodeByPath(m, t).Some?
    requires LocalTo(LiveRoot(m), s, t)
    ensures var root := LiveRoot(m); var c := LcaLen(s, t);
      var exited := ExitPaths(m, cur, s[..c + 1]);
      NodeAt(root, t).Some? &&
      var entered := TargetPaths(root, t, c);
      var r := ApplyResolved(m, cur, s, t);
      && Wf(root, r.next)
      && (forall q :: IsActive(root, r.next, q) <==> (IsActive(root, cur, q) && q !in exited) || q in entered)
      && (forall q :: q in exited <==> IsActive(root, cur, q) && s[..c + 1] <= q)
      && Upward(exited, ActiveLeafPaths(m, cur, []), s[..c + 1])
      && r.exits == Collect(Root(m), exited, ExitList)
      && NoDup(entered) && TopDown(entered, c + 1)
      && r.entries == Collect(Root(m), entered, EntryList)
  {
    NextIsLocal(m, cur, s, t);
    EnteredNodes(m, cur, s, t);
    ExitedNodes(m, cur, s[..LcaLen(s, t) + 1]);
    forall q ensures IsActive(LiveRoot(m), NextValue(m, cur, s, t), q) <==>
      (IsActive(LiveRoot(m), cur, q) && q !in ExitPaths(m, cur, s[..LcaLen(s, t) + 1])) || q in TargetPaths(LiveRoot(m), t, LcaLen(s, t))
    {
      ActiveAfter(m, cur, s, t, q);
    }
  }

  lemma NextIsLocal(m: Machine, cur: StateValue, s: Path, t: Path)
    requires Running(m, cur) && s != [] && IsActive(LiveRoot(m), cur, s) && GetNodeByPath(m, t).Some?
    requires LocalTo(LiveRoot(m), s, t)
    ensures SafeTarget(m, cur, s, t) && Wf(LiveRoot(m), NextValue(m, cur, s, t))
  {
    ActiveSource(m, cur, s, t);
    LocalIsSafe(m, cur, s, t);
    NextIsWellFormedIff(m, cur, s, t);
  }

  lemma ActiveAfter(m: Machine, cur: StateValue, s: Path, t: Path, q: Path)
    requires Running(m, cur) && s != [] && IsActive(LiveRoot(m), cur, s) && GetNodeByPath(m, t).Some?
    requires LocalTo(LiveRoot(m), s, t)
    ensures NodeAt(LiveRoot(m), t).Some?
    ensures IsActive(LiveRoot(m), NextValue(m, cur, s, t), q) <==>
      (IsActive(LiveRoot(m), cur, q) && !(s[..LcaLen(s, t) + 1] <= q)) || q in TargetPaths(LiveRoot(m), t, LcaLen(s, t))
  {
    LiveRootShape(m);
    NextIsLocal(m, cur, s, t);
    NextActive(m, cur, s, t, q);
    TargetPathsAre(LiveRoot(m), t, LcaLen(s, t), q);
  }

  lemma EnteredNodes(m: Machine, cur: StateValue, s: Path, t: Path)
    requires Running(m, cur) && s != [] && IsActive(LiveRoot(m), cur, s) && GetNodeByPath(m, t).Some?
    requires LocalTo(LiveRoot(m), s, t)
    ensures NodeAt(LiveRoot(m), t).Some?
    ensures var c := LcaLen(s, t); var entered := TargetPaths(LiveRoot(m), t, c);
      && NoDup(entered) && TopDown(entered, c + 1)
      && ApplyResolved(m, cur, s, t).entries == Collect(Root(m), entered, EntryList)
  {
    var c := LcaLen(s, t);
    LiveRootShape(m);
    NextIsLocal(m, cur, s, t);
    LiveLookup(m, t);
    WellShapedAt(LiveRoot(m), t);
    TargetsTopDown(LiveRoot(m), t, c);
    TargetsNoDup(LiveRoot(m), t, c);
    TargetEffects(m, t, c);
  }

  lemma ExitedNodes(m: Machine, cur: StateValue, prefix: Path)
    requires Running(m, cur) && ReadableRegions(LiveRoot(m)) && prefix != []
    ensures Upward(ExitPaths(m, cur, prefix), ActiveLeafPaths(m, cur, []), prefix)
    ensures forall q :: q in ExitPaths(m, cur, prefix) <==> IsActive(LiveRoot(m), cur, q) && prefix <= q
  {
    var leaves := ActiveLeafPaths(m, cur, []);
    ExitOrderIsUpward(leaves, leaves, prefix, []);
    forall q ensures q in ExitPaths(m, cur, prefix) <==> IsActive(LiveRoot(m), cur, q) && prefix <= q {
      ExitOrderMembers(leaves, leaves, prefix, [], q);
      LeavesOf(m, cur, q);
    }
  }

  lemma TargetEffects(m: Machine, t: Path, c: nat)
    requires ValidTree(m) && c < |t| && GetNodeByPath(m, t).Some? && NodeAt(LiveRoot(m), t) == GetNodeByPath(m, t)
    ensures Collect(Root(m), AncestorPaths(t, c), EntryList) + EnterSubtree(GetNodeByPath(m, t).value).effects
      == Collect(Root(m), TargetPaths(LiveRoot(m), t, c), EntryList)
  {
    var n := GetNodeByPath(m, t).value;
    LiveRootShape(m);
    WellShapedAt(LiveRoot(m), t);
    EnterEffects(n);
    CollectBelow(Root(m), t, EnteredPaths(n), EntryList);
    CollectAppend(Root(m), AncestorPaths(t, c), Below(t, EnteredPaths(n)), EntryList);
  }
}
