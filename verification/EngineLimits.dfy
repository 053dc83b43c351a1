/** Where the engine does not meet its documentation, and exactly when it does. */
module EngineLimits {
  import opened Records
  import opened Machines
  import opened PathLists
  import opened Configurations
  import opened Entry
  import opened Leaves
  import opened Transitions
  import opened Validation
  import opened Engine
  import opened Completion
  import opened Matching
  import opened Calls
  import opened SmallMachines

  // ---- Exit order ----

  /** No node is exited before one of its descendants. */
  ghost predicate BottomUp(order: seq<Path>) {
    forall i, j :: 0 <= i < j < |order| ==> !(order[i] < order[j])
  }

  ghost predicate OneLeafBelow(leaves: seq<Path>, prefix: Path) {
    forall i, j :: 0 <= i < |leaves| && 0 <= j < |leaves| && prefix <= leaves[i] && prefix <= leaves[j]
      ==> leaves[i] == leaves[j]
  }

  lemma {:induction false} SeenStays<T>(seen: seq<T>, items: seq<T>)
    ensures seen <= AddNew(seen, items)
    decreases |items|
  {
    if items != [] { SeenStays(if items[0] in seen then seen else seen + [items[0]], items[1..]); }
  }

  lemma {:induction false} ExitedStay(leaves: seq<Path>, prefix: Path, seen: seq<Path>)
    requires forall i :: 0 <= i < |leaves| ==> leaves[i] != []
    ensures seen <= ExitOrder(leaves, prefix, seen)
    decreases |leaves|
  {
    if leaves != [] {
      var next := if prefix <= leaves[0] then AddNew(seen, Chain(leaves[0], prefix)) else seen;
      if prefix <= leaves[0] { SeenStays(seen, Chain(leaves[0], prefix)); }
      ExitedStay(leaves[1..], prefix, next);
    }
  }

  lemma {:induction false} AllSeen<T>(seen: seq<T>, items: seq<T>)
    requires forall i :: 0 <= i < |items| ==> items[i] in seen
    ensures AddNew(seen, items) == seen
    decreases |items|
  {
    if items != [] { AllSeen(seen, items[1..]); }
  }

  /** With a single leaf the order is that leaf's climb. */
  lemma {:induction false} OneLeafOrder(leaves: seq<Path>, prefix: Path, leaf: Path, seen: seq<Path>)
    requires forall i :: 0 <= i < |leaves| ==> leaves[i] != []
    requires forall i :: 0 <= i < |leaves| && prefix <= leaves[i] ==> leaves[i] == leaf
    requires leaf != [] && prefix <= leaf && (seen == [] || seen == Chain(leaf, prefix))
    ensures ExitOrder(leaves, prefix, seen) == [] || ExitOrder(leaves, prefix, seen) == Chain(leaf, prefix)
    decreases |leaves|
  {
    if leaves != [] {
      var chain := Chain(leaf, prefix);
      if prefix <= leaves[0] {
        ChainAt(leaf, prefix, leaf);
        if seen == [] {
          AddNewSplit(seen, chain, |chain|);
          assert [] + chain[..|chain|] == chain;
        } else {
          AllSeen(seen, chain);
        }
        assert leaves[0] == leaf && AddNew(seen, chain) == chain;
        OneLeafOrder(leaves[1..], prefix, leaf, chain);
      } else {
        OneLeafOrder(leaves[1..], prefix, leaf, seen);
      }
    }
  }

  /** A second leaf is exited after the root of the exited subtree, which is above it. */
  lemma {:induction false} SecondLeafIsLate(leaves: seq<Path>, all: seq<Path>, prefix: Path, a: nat, b: nat)
    requires forall i :: 0 <= i < |leaves| ==> leaves[i] != [] && leaves[i] in all
    requires prefix != [] && a < |leaves| && b < |leaves| && prefix <= leaves[a] && prefix < leaves[b]
    requires !(leaves[b] <= leaves[a]) && (forall i :: 0 <= i < a ==> !(prefix <= leaves[i]))
    ensures !BottomUp(ExitOrder(leaves, prefix, []))
    decreases |leaves|
  {
    if a > 0 {
      assert b > 0;
      SecondLeafIsLate(leaves[1..], all, prefix, a - 1, b - 1);
    } else {
      var order := ExitOrder(leaves, prefix, []);
      var first := AddNew([], Chain(leaves[0], prefix));
      AddChainMembers([], prefix, leaves[0], prefix);
      AddChainMembers([], prefix, leaves[0], leaves[b]);
      ExitedStay(leaves[1..], prefix, first);
      ExitOrderMembers(leaves, all, prefix, [], leaves[b]);
      assert leaves[b] <= leaves[b];
      var i :| 0 <= i < |first| && first[i] == prefix;
      var j :| 0 <= j < |order| && order[j] == leaves[b];
      assert order[i] == first[i];
      assert j >= |first|;
    }
  }

  lemma FirstBelow(leaves: seq<Path>, prefix: Path, i: nat) returns (a: nat)
    requires i < |leaves| && prefix <= leaves[i]
    ensures a <= i && prefix <= leaves[a] && forall k :: 0 <= k < a ==> !(prefix <= leaves[k])
  {
    a := 0;
    while !(prefix <= leaves[a])
      invariant a <= i && forall k :: 0 <= k < a ==> !(prefix <= leaves[k])
      decreases i - a
    {
      a := a + 1;
    }
  }

  /** The specification asks for exits from the leaves up. The order is bottom-up exactly when a
      single leaf is active below the exited state. */
  lemma ExitsAreBottomUpIff(m: Machine, cur: StateValue, prefix: Path)
    requires Running(m, cur) && ReadableRegions(LiveRoot(m)) && prefix != []
    ensures BottomUp(ExitPaths(m, cur, prefix)) <==> OneLeafBelow(ActiveLeafPaths(m, cur, []), prefix)
  {
    var leaves := ActiveLeafPaths(m, cur, []);
    if OneLeafBelow(leaves, prefix) {
      if i :| 0 <= i < |leaves| && prefix <= leaves[i] {
        OneLeafOrder(leaves, prefix, leaves[i], []);
      } else {
        NothingBelow(leaves, prefix);
      }
    } else {
      var i, j :| 0 <= i < |leaves| && 0 <= j < |leaves| && prefix <= leaves[i] && prefix <= leaves[j] && leaves[i] != leaves[j];
      SecondLeafBreaksOrder(m, cur, prefix, i, j);
    }
  }

  lemma SecondLeafBreaksOrder(m: Machine, cur: StateValue, prefix: Path, i: nat, j: nat)
    requires Running(m, cur) && ReadableRegions(LiveRoot(m)) && prefix != []
    requires i < |ActiveLeafPaths(m, cur, [])| && j < |ActiveLeafPaths(m, cur, [])|
    requires prefix <= ActiveLeafPaths(m, cur, [])[i] && prefix <= ActiveLeafPaths(m, cur, [])[j]
    requires ActiveLeafPaths(m, cur, [])[i] != ActiveLeafPaths(m, cur, [])[j]
    ensures !BottomUp(ExitPaths(m, cur, prefix))
  {
    var leaves := ActiveLeafPaths(m, cur, []);
    var a := FirstBelow(leaves, prefix, i);
    var b := if leaves[a] == leaves[i] then j else i;
    LeavesApart(m, cur, leaves[b], leaves[a]);
    assert prefix < leaves[b] by {
      if prefix == leaves[b] { LeavesApart(m, cur, leaves[b], leaves[a]); } else { ProperPrefix(prefix, leaves[b]); }
    }
    SecondLeafIsLate(leaves, leaves, prefix, a, b);
  }

  lemma {:induction false} NothingBelow(leaves: seq<Path>, prefix: Path)
    requires forall i :: 0 <= i < |leaves| ==> leaves[i] != [] && !(prefix <= leaves[i])
    ensures ExitOrder(leaves, prefix, []) == []
    decreases |leaves|
  {
    if leaves != [] { NothingBelow(leaves[1..], prefix); }
  }

  lemma LeavesApart(m: Machine, cur: StateValue, a: Path, b: Path)
    requires Running(m, cur) && ReadableRegions(LiveRoot(m))
    requires a in ActiveLeafPaths(m, cur, []) && b in ActiveLeafPaths(m, cur, []) && a != b
    ensures !(a <= b)
  {
    var root := LiveRoot(m);
    LiveRootShape(m);
    LeavesOf(m, cur, a);
    LeavesOf(m, cur, b);
    assert a <= a && b <= b;
    LeafKinds(root, cur, a);
    if a <= b {
      ProperPrefix(a, b);
      assert b[..|a|] == a;
      ActivePrefix(root, cur, b, |a|);
    }
  }

  // ---- Targets that break the configuration ----

  /** With a parallel root and no `error` state of its own, going to `error` never gives a
      well-formed configuration: the map gets an extra region. */
  lemma ErrorBreaksParallelRoot(m: Machine, cur: StateValue, s: Path)
    requires Running(m, cur) && m.kind == Parallel && s != [] && IsActive(LiveRoot(m), cur, s)
    requires Has(m.states, ErrorKey) && Get(m.states, ErrorKey).value.implicitError
    ensures GetNodeByPath(m, [ErrorKey]).Some? && !Wf(LiveRoot(m), NextValue(m, cur, s, [ErrorKey]))
  {
    var t: Path := [ErrorKey];
    assert t[0] == ErrorKey && t[1..] == [];
    assert NodeAt(Root(m), t) == Get(m.states, ErrorKey);
    LiveLookup(m, t);
    ActiveSource(m, cur, s, t);
    NextIsWellFormedIff(m, cur, s, t);
  }

  /** A region that is itself a leaf can never be targeted from inside its parallel state: the
      regions are overwritten by the bare key. */
  lemma LeafRegionTargetBreaks(m: Machine, cur: StateValue, s: Path, t: Path)
    requires Running(m, cur) && s != [] && IsActive(LiveRoot(m), cur, s) && GetNodeByPath(m, t).Some?
    requires |t| > 1 && |s| >= |t| && s[..|t| - 1] == t[..|t| - 1]
    requires NodeAt(LiveRoot(m), t).Some? && IsLeaf(NodeAt(LiveRoot(m), t).value)
    requires NodeAt(LiveRoot(m), t[..|t| - 1]).Some? && NodeAt(LiveRoot(m), t[..|t| - 1]).value.kind == Parallel
    ensures !Wf(LiveRoot(m), NextValue(m, cur, s, t))
  {
    ActiveSource(m, cur, s, t);
    NextIsWellFormedIff(m, cur, s, t);
    var c := LcaLen(s, t);
    if c + 1 < |t| { SamePrefix(s, t, |t| - 1, c); }
  }

  function Region(leaf: string): Node {
    Plain(Compound, leaf, Field(leaf, Plain(Atomic, "", Empty), Empty))
  }

  /** A machine with a state `a` and a parallel state `p` with regions `r` and `q`; an edge of `a`
      names a state inside one region. */
  function TwoRegions(): Machine {
    var go := Edge("p.r.x", "", []);
    Machine("m", Compound, "a", "",
      Field("a", Plain(Atomic, "", Empty).(on := Field("GO", go, Empty)),
      Field("p", BothPlain(), Empty)))
  }

  function BothPlain(): Node { Plain(Parallel, "", Field("r", Region("x"), Field("q", Region("y"), Empty))) }

  /** Entering a parallel state by naming a state inside one region leaves the other out. */
  lemma OneRegionIsNotEnough()
    ensures var m := WithErrorState(TwoRegions()); var t := ["p", "r", "x"];
      && ValidTree(m) && Wf(LiveRoot(m), Leaf("a")) && IsActive(LiveRoot(m), Leaf("a"), ["a"])
      && GetNodeByPath(m, t).Some?
      && !Wf(LiveRoot(m), NextValue(m, Leaf("a"), ["a"], t))
  {
    var m := WithErrorState(TwoRegions());
    var t := ["p", "r", "x"];
    var p := BothPlain();
    TwoRegionsTree(m);
    assert ["a"][1..] == [] && ["p"][1..] == [];
    NextIsWellFormedIff(m, Leaf("a"), ["a"], t);
    assert t[..1] == ["p"] && NodeAt(LiveRoot(m), ["p"]) == Some(p);
    assert !Rebuildable(LiveRoot(m), Leaf("a"), t[..1]);
    assert !RebuildableFrom(LiveRoot(m), Leaf("a"), t, 0);
  }

  lemma TwoRegionsTree(m: Machine)
    requires m == WithErrorState(TwoRegions())
    ensures ValidTree(m) && LiveRoot(m) == Root(m) && m.kind == Compound
    ensures Get(m.states, "p") == Some(BothPlain()) && Has(m.states, "a") && IsLeaf(Get(m.states, "a").value)
    ensures GetNodeByPath(m, ["p", "r", "x"]).Some?
  {
    assert AllWellShaped(BothPlain().states) && WellShaped(BothPlain());
    assert AllWellShaped(m.states);
    var t := ["p", "r", "x"];
    assert t[1..] == ["r", "x"] && ["r", "x"][1..] == ["x"] && ["x"][1..] == [];
    assert NodeAt(Region("x"), ["x"]).Some?;
    assert NodeAt(BothPlain(), ["r", "x"]) == NodeAt(Region("x"), ["x"]);
  }

  /** A broadcast whose targets are all region-local can break the configuration: on GO the first
      match leaves the parallel state, and the second brings one region of it back. */
  lemma LeavingBreaksTheRest()
    ensures var m := WithErrorState(Leaving()); var root := LiveRoot(m);
      var r := ["p", "r", "x"]; var q := ["p", "q", "y"];
      && Issues(Leaving(), None) == [] && Running(m, BothActive)
      && ResolveTransitions(m, BothActive, "GO") == [Match(r, Edge("#done", "", [])), Match(q, Edge("z", "", []))]
      && LocalTo(root, r, ["done"]) && LocalTo(root, q, ["p", "q", "z"])
      && Moved(m, BothActive, r, "#done") == Some(Leaf("done"))
      && Moved(m, Leaf("done"), q, "z") == Some(OneLeft)
      && !Wf(root, OneLeft)
  {
    var m := WithErrorState(Leaving());
    LeavingIsAccepted();
    LeavingShape(m);
    LeavingMatches(m);
    LeavingFirst(m);
    LeavingSecond(m);
    LeavingIsLocal(m);
    assert !WfRegions(BothRegions().states, Field("q", Leaf("z"), Empty));
    assert !Wf(BothRegions(), Obj(Field("q", Leaf("z"), Empty)));
  }

  lemma LeavingIsLocal(m: Machine)
    requires m == WithErrorState(Leaving())
    ensures LocalTo(LiveRoot(m), ["p", "r", "x"], ["done"]) && LocalTo(LiveRoot(m), ["p", "q", "y"], ["p", "q", "z"])
  {
    LeavingShape(m);
    var root := LiveRoot(m);
    var s, t := ["p", "q", "y"], ["p", "q", "z"];
    assert t[..2] == ["p", "q"] && ["p", "q"][1..] == ["q"] && ["q"][1..] == [];
    assert NodeAt(BothRegions(), ["q"]) == Some(RegionQ());
    assert NodeAt(root, t[..2]) == Some(RegionQ());
    assert s[..2] == t[..2];
    assert ["done"][..0] == [];
  }

  /** Leaving the parallel state of the same machine with both regions active: the exits are not
      bottom-up, because the parallel state itself is exited before the second region. */
  lemma ParentBeforeSecondRegion()
    ensures var m := WithErrorState(Leaving());
      && Issues(Leaving(), None) == [] && Running(m, BothActive)
      && ActiveLeafPaths(m, BothActive, []) == [["p", "r", "x"], ["p", "q", "y"]]
      && !BottomUp(ExitPaths(m, BothActive, ["p"]))
  {
    var m := WithErrorState(Leaving());
    LeavingIsAccepted();
    LeavingShape(m);
    LeavingLeaves(m);
    var a, b := ["p", "r", "x"], ["p", "q", "y"];
    assert a[1] != b[1];
    TwoLeavesBelow(m, BothActive, ["p"], a, b);
  }

  lemma TwoLeavesBelow(m: Machine, cur: StateValue, p: Path, a: Path, b: Path)
    requires Running(m, cur) && ReadableRegions(LiveRoot(m)) && a != b && p != [] && p <= a && p <= b
    requires ActiveLeafPaths(m, cur, []) == [a, b]
    ensures !BottomUp(ExitPaths(m, cur, p))
  {
    ExitsAreBottomUpIff(m, cur, p);
    var leaves := ActiveLeafPaths(m, cur, []);
    assert leaves[0] == a && leaves[1] == b;
  }

  lemma LeavingLeaves(m: Machine)
    requires m == WithErrorState(Leaving())
    ensures ActiveLeafPaths(m, BothActive, []) == [["p", "r", "x"], ["p", "q", "y"]]
  {
    LeavingNodes(m);
    RegionScan(m, ["p"], ["p", "r"], ["p", "q"]);
    assert [] + ["p"] == ["p"];
    assert EntryLeaves(m, Empty, []) == [];
  }

  /** The scan of the two regions, from the nodes found at their paths. */
  lemma RegionScan(m: Machine, p: Path, r: Path, q: Path)
    requires p == ["p"] && r == ["p", "r"] && q == ["p", "q"]
    requires GetNodeByPath(m, r) == Some(RegionR()) && GetNodeByPath(m, q) == Some(RegionQ())
    ensures RegionLeaves(m, Field("r", Leaf("x"), Field("q", Leaf("y"), Empty)), p) == [["p", "r", "x"], ["p", "q", "y"]]
  {
    assert p + ["r"] == r && p + ["q"] == q && r + ["x"] == ["p", "r", "x"] && q + ["y"] == ["p", "q", "y"];
    assert OneRegionLeaves(m, "r", Leaf("x"), p) == [r + ["x"]];
    assert OneRegionLeaves(m, "q", Leaf("y"), p) == [q + ["y"]];
    assert RegionLeaves(m, Field("q", Leaf("y"), Empty), p) == [q + ["y"]];
  }

  lemma LeavingNodes(m: Machine)
    requires m == WithErrorState(Leaving())
    ensures m.kind == Compound && GetNodeByPath(m, ["p"]) == Some(BothRegions())
    ensures GetNodeByPath(m, ["p", "r"]) == Some(RegionR()) && GetNodeByPath(m, ["p", "q"]) == Some(RegionQ())
  {
    LeavingShape(m);
    var p, r, q := ["p"], ["p", "r"], ["p", "q"];
    assert p[1..] == [] && r[1..] == ["r"] && q[1..] == ["q"] && ["r"][1..] == [] && ["q"][1..] == [];
  }
}
