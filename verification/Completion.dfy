/** Completion of containers, the automatic `onDone` cascade and the settled status
    (engine/statechart.ts, findPendingOnDone, isBranchFinalAt, resolveSettledTransactionStatus;
    runtime/actor.ts, the cascade loop). */
module Completion {
  import opened Records
  import opened Machines
  import opened PathLists
  import opened DotPaths
  import opened Configurations
  import opened Entry
  import opened Leaves
  import opened Transitions
  import opened Validation
  import opened Engine

  // ---- The scan of the source ----

  /** The proper ancestors of a leaf, deepest first, without the root. */
  function ProperPrefixes(leaf: Path): seq<Path>
    requires leaf != []
  {
    seq(|leaf| - 1, i requires 0 <= i < |leaf| - 1 => leaf[..|leaf| - 1 - i])
  }

  function Containers(leaves: seq<Path>, seen: seq<Path>): seq<Path>
    requires forall i :: 0 <= i < |leaves| ==> leaves[i] != []
    decreases |leaves|
  {
    if leaves == [] then seen else Containers(leaves[1..], AddNew(seen, ProperPrefixes(leaves[0])))
  }

  function OfLength(ps: seq<Path>, len: nat): seq<Path> {
    if ps == [] then [] else (if |ps[0]| == len then [ps[0]] else []) + OfLength(ps[1..], len)
  }

  /** A stable sort by descending depth, for paths no deeper than `len`. */
  function DeepestFirst(ps: seq<Path>, len: nat): seq<Path> {
    OfLength(ps, len) + if len == 0 then [] else DeepestFirst(ps, len - 1)
  }

  function MaxDepth(ps: seq<Path>): (d: nat)
    ensures forall i :: 0 <= i < |ps| ==> |ps[i]| <= d
  {
    if ps == [] then 0
    else
      var d := MaxDepth(ps[1..]);
      assert forall i :: 0 < i < |ps| ==> ps[i] == ps[1..][i - 1];
      if |ps[0]| > d then |ps[0]| else d
  }

  function LeavesFrom(leaves: seq<Path>, p: Path): seq<Path> {
    if leaves == [] then [] else (if p <= leaves[0] then [leaves[0]] else []) + LeavesFrom(leaves[1..], p)
  }

  function LeavesStrictlyBelow(leaves: seq<Path>, p: Path): seq<Path> {
    if leaves == [] then [] else (if p < leaves[0] then [leaves[0]] else []) + LeavesStrictlyBelow(leaves[1..], p)
  }

  predicate IsFinalPath(m: Machine, p: Path) {
    var n := GetNodeByPath(m, p);
    n.Some? && n.value.kind == Final
  }

  predicate IsBranchFinalAt(m: Machine, region: Path, leaf: Path) {
    var n := GetNodeByPath(m, region);
    && IsFinalPath(m, leaf) && n.Some?
    && (n.value.kind == Final || (n.value.kind == Compound && leaf != [] && leaf == region + [leaf[|leaf| - 1]]))
  }

  predicate RegionsDone(m: Machine, leaves: seq<Path>, p: Path, regions: Record<Node>) {
    match regions
    case Empty => true
    case Field(k, _, rest) =>
      var own := LeavesFrom(leaves, p + [k]);
      && own != [] && (forall i :: 0 <= i < |own| ==> IsBranchFinalAt(m, p + [k], own[i]))
      && RegionsDone(m, leaves, p, rest)
  }

  predicate DoneByScan(m: Machine, leaves: seq<Path>, p: Path) {
    var n := GetNodeByPath(m, p);
    && n.Some? && n.value.onDone.Some?
    && match n.value.kind
       case Compound =>
         var own := LeavesStrictlyBelow(leaves, p);
         |own| == 1 && IsFinalPath(m, own[0])
       case Parallel => RegionsDone(m, leaves, p, n.value.states)
       case _ => false
  }

  function FirstDone(m: Machine, leaves: seq<Path>, candidates: seq<Path>): Option<Path> {
    if candidates == [] then None
    else if DoneByScan(m, leaves, candidates[0]) then Some(candidates[0])
    else FirstDone(m, leaves, candidates[1..])
  }

  function FindPendingOnDone(m: Machine, v: StateValue): Option<Path> {
    var leaves := ActiveLeafPaths(m, v, []);
    var containers := Containers(leaves, []);
    FirstDone(m, leaves, DeepestFirst(containers, MaxDepth(containers)))
  }

  // ---- Completion on the configuration tree ----

  /** A single leaf is active below `n`, and it is final. */
  predicate OneFinalLeaf(n: Node, v: StateValue)
    decreases v
  {
    match v
    case Leaf(k) => Has(n.states, k) && Get(n.states, k).value.kind == Final
    case Obj(f) =>
      && f.Field? && f.rest.Empty? && Has(n.states, f.key)
      && (var c := Get(n.states, f.key).value;
          if IsLeaf(c) then c.kind == Final else OneFinalLeaf(c, f.val))
  }

  /** A region is done when its own active child is final; one that is itself parallel never is. */
  predicate RegionDone(region: Node, w: StateValue) {
    match region.kind
    case Final => true
    case Compound => w.Leaf? && Has(region.states, w.name) && Get(region.states, w.name).value.kind == Final
    case _ => false
  }

  predicate Complete(n: Node, v: StateValue) {
    match n.kind
    case Compound => OneFinalLeaf(n, v)
    case Parallel => v.Obj? && forall k :: k in Keys(n.states) ==>
      Has(n.states, k) && Has(v.fields, k) && RegionDone(Get(n.states, k).value, Get(v.fields, k).value)
    case _ => false
  }

  /** An active container whose `onDone` is ready to fire. */
  ghost predicate Ready(m: Machine, v: StateValue, p: Path) {
    var root := LiveRoot(m);
    && p != [] && IsActive(root, v, p) && NodeAt(root, p).Some? && !IsLeaf(NodeAt(root, p).value)
    && NodeAt(root, p).value.onDone.Some?
    && ValueAt(v, p).Some? && Complete(NodeAt(root, p).value, ValueAt(v, p).value)
  }

  // ---- Both views agree ----

  lemma {:induction false} LeavesFromAppend(a: seq<Path>, b: seq<Path>, p: Path)
    ensures LeavesFrom(a + b, p) == LeavesFrom(a, p) + LeavesFrom(b, p)
  {
    if a == [] {
      assert a + b == b;
    } else {
      assert (a + b)[1..] == a[1..] + b;
      LeavesFromAppend(a[1..], b, p);
    }
  }

  lemma PrefixUnder(k: string, q: Path, p: Path)
    requires p != []
    ensures p <= [k] + q <==> p[0] == k && p[1..] <= q
  {
    assert p == [p[0]] + p[1..] && ([k] + q)[1..] == q;
  }

  lemma {:induction false} LeavesFromUnder(k: string, ps: seq<Path>, p: Path)
    requires p != []
    ensures LeavesFrom(Under(k, ps), p) == if p[0] == k then Under(k, LeavesFrom(ps, p[1..])) else []
  {
    if ps != [] {
      assert Under(k, ps)[1..] == Under(k, ps[1..]);
      LeavesFromUnder(k, ps[1..], p);
      PrefixUnder(k, ps[0], p);
      assert Under(k, ps)[0] == [k] + ps[0];
      if p[0] == k && p[1..] <= ps[0] {
        assert Under(k, [ps[0]] + LeavesFrom(ps[1..], p[1..])) == [[k] + ps[0]] + Under(k, LeavesFrom(ps[1..], p[1..]));
      }
    }
  }

  lemma {:induction false} LeavesFromRoot(ps: seq<Path>)
    ensures LeavesFrom(ps, []) == ps
  {
    if ps != [] {
      LeavesFromRoot(ps[1..]);
      assert ps == [ps[0]] + ps[1..];
    }
  }

  /** The leaves found below an active container are its own leaves. */
  lemma {:induction false} LeavesBelowAre(n: Node, v: StateValue, p: Path)
    requires WellShaped(n) && Wf(n, v) && IsActive(n, v, p)
    requires NodeAt(n, p).Some? && !IsLeaf(NodeAt(n, p).value) && ValueAt(v, p).Some?
    ensures LeavesFrom(TreeLeaves(n, v), p) == Below(p, TreeLeaves(NodeAt(n, p).value, ValueAt(v, p).value))
    decreases |p|
  {
    if p == [] {
      LeavesFromRoot(TreeLeaves(n, v));
      var ls := TreeLeaves(n, v);
      forall i | 0 <= i < |ls| ensures [] + ls[i] == ls[i] {}
      assert Below([], ls) == ls;
    } else {
      var c := Get(n.states, p[0]).value;
      WellShapedChild(n.states, p[0]);
      if IsLeaf(c) {
        assert false;
      } else {
        var w := Get(v.fields, p[0]).value;
        if n.kind == Parallel { RegionOf(n.states, v.fields, p[0]); }
        LeavesBelowAre(c, w, p[1..]);
        var inner := TreeLeaves(c, w);
        if n.kind == Parallel {
          FieldLeavesFrom(n, n.states, v.fields, p);
        } else {
          assert TreeFieldLeaves(n, v.fields) == Under(p[0], inner);
        }
        LeavesFromUnder(p[0], inner, p);
        UnderBelow(p, TreeLeaves(NodeAt(n, p).value, ValueAt(v, p).value));
      }
    }
  }

  lemma UnderBelow(p: Path, ps: seq<Path>)
    requires p != []
    ensures Under(p[0], Below(p[1..], ps)) == Below(p, ps)
  {
    forall i | 0 <= i < |ps| ensures [p[0]] + (p[1..] + ps[i]) == p + ps[i] {
      assert p == [p[0]] + p[1..];
    }
  }

  /** The leaves of one field of a container. */
  function FieldOwn(k: string, c: Node, w: StateValue): seq<Path> {
    if IsLeaf(c) then [[k]] else Under(k, TreeLeaves(c, w))
  }

  lemma {:induction false} FieldLeavesFrom(n: Node, regions: Record<Node>, fields: Record<StateValue>, p: Path)
    requires WfRegions(regions, fields) && DistinctKeys(regions) && p != []
    requires forall k :: Has(regions, k) ==> Get(n.states, k) == Get(regions, k)
    ensures LeavesFrom(TreeFieldLeaves(n, fields), p) ==
      if Has(regions, p[0]) && Has(fields, p[0]) then LeavesFrom(FieldOwn(p[0], Get(regions, p[0]).value, Get(fields, p[0]).value), p)
      else []
    decreases fields
  {
    match fields
    case Empty =>
    case Field(k, w, rest) =>
      assert Has(regions, k);
      OneFieldFrom(n, k, regions.val, w, rest, p);
      forall j | Has(regions.rest, j) ensures Get(n.states, j) == Get(regions.rest, j) { assert Has(regions, j); }
      FieldLeavesFrom(n, regions.rest, rest, p);
      if p[0] != k { ElsewhereNone(k, regions.val, w, p); }
  }

  lemma OneFieldFrom(n: Node, k: string, c: Node, w: StateValue, rest: Record<StateValue>, p: Path)
    requires Get(n.states, k) == Some(c)
    ensures LeavesFrom(TreeFieldLeaves(n, Field(k, w, rest)), p) == LeavesFrom(FieldOwn(k, c, w), p) + LeavesFrom(TreeFieldLeaves(n, rest), p)
  {
    LeavesFromAppend(FieldOwn(k, c, w), TreeFieldLeaves(n, rest), p);
  }

  lemma ElsewhereNone(k: string, c: Node, w: StateValue, p: Path)
    requires p != [] && p[0] != k
    ensures LeavesFrom(FieldOwn(k, c, w), p) == []
  {
    if IsLeaf(c) { assert LeavesFrom([[k]][1..], p) == []; } else { LeavesFromUnder(k, TreeLeaves(c, w), p); }
  }

  lemma {:induction false} LeafKinds(n: Node, v: StateValue, l: Path)
    requires WellShaped(n) && Wf(n, v) && l in TreeLeaves(n, v)
    ensures l != [] && NodeAt(n, l).Some? && IsLeaf(NodeAt(n, l).value)
    decreases v, 1
  {
    if v.Leaf? {
      assert [v.name][1..] == [];
    } else {
      if n.kind == Parallel {
        FieldLeafKinds(n, n.states, v.fields, l);
      } else {
        var c := Get(n.states, v.fields.key).value;
        WellShapedChild(n.states, v.fields.key);
        assert TreeFieldLeaves(n, v.fields) == Under(v.fields.key, TreeLeaves(c, v.fields.val));
        UnderMember(v.fields.key, TreeLeaves(c, v.fields.val), l);
        LeafKinds(c, v.fields.val, l[1..]);
      }
    }
  }

  lemma {:induction false} FieldLeafKinds(n: Node, regions: Record<Node>, fields: Record<StateValue>, l: Path)
    requires WfRegions(regions, fields) && DistinctKeys(regions) && AllWellShaped(regions)
    requires forall k :: Has(regions, k) ==> Get(n.states, k) == Get(regions, k)
    requires l in TreeFieldLeaves(n, fields)
    ensures l != [] && NodeAt(n, l).Some? && IsLeaf(NodeAt(n, l).value)
    decreases fields
  {
    match fields
    case Field(k, w, rest) =>
      assert Has(regions, k);
      var c := regions.val;
      if l in TreeFieldLeaves(n, rest) {
        forall j | Has(regions.rest, j) ensures Get(n.states, j) == Get(regions.rest, j) { assert Has(regions, j); }
        FieldLeafKinds(n, regions.rest, rest, l);
      } else if IsLeaf(c) {
        assert l == [k] && [k][1..] == [];
      } else {
        UnderMember(k, TreeLeaves(c, w), l);
        LeafKinds(c, w, l[1..]);
      }
  }

  lemma {:induction false} NoLeafAtContainer(leaves: seq<Path>, p: Path)
    requires p !in leaves
    ensures LeavesStrictlyBelow(leaves, p) == LeavesFrom(leaves, p)
  {
    if leaves != [] {
      assert leaves[0] in leaves;
      if p <= leaves[0] { ProperPrefix(p, leaves[0]); }
      NoLeafAtContainer(leaves[1..], p);
    }
  }

  lemma {:induction false} OneFinalLeafIs(n: Node, v: StateValue)
    requires WellShaped(n) && Wf(n, v)
    ensures OneFinalLeaf(n, v) <==>
      |TreeLeaves(n, v)| == 1 && NodeAt(n, TreeLeaves(n, v)[0]).Some? && NodeAt(n, TreeLeaves(n, v)[0]).value.kind == Final
    decreases v
  {
    if v.Leaf? {
      assert [v.name][1..] == [];
    } else {
      var k := v.fields.key;
      var w := v.fields.val;
      var c := Get(n.states, k).value;
      WellShapedChild(n.states, k);
      if n.kind == Parallel { RegionOf(n.states, v.fields, k); }
      var own := if IsLeaf(c) then [[k]] else Under(k, TreeLeaves(c, w));
      assert TreeLeaves(n, v) == own + TreeFieldLeaves(n, v.fields.rest);
      if !IsLeaf(c) {
        OneFinalLeafIs(c, w);
        SomeLeaf(c, w);
        if |TreeLeaves(c, w)| == 1 {
          assert own[0] == [k] + TreeLeaves(c, w)[0] && own[0][1..] == TreeLeaves(c, w)[0];
        }
      } else {
        assert [k][1..] == [];
      }
      if v.fields.rest.Field? { MoreFieldsMoreLeaves(n, n.states.rest, v.fields.rest); }
    }
  }

  lemma MoreFieldsMoreLeaves(n: Node, regions: Record<Node>, fields: Record<StateValue>)
    requires WellShaped(n) && n.kind == Parallel && WfRegions(regions, fields) && fields.Field?
    requires n.states.Field? && regions == n.states.rest
    ensures TreeFieldLeaves(n, fields) != []
  {
    assert Has(regions, fields.key) && !Has(regions, n.states.key);
    assert Get(n.states, fields.key) == Get(regions, fields.key);
    var c := Get(n.states, fields.key).value;
    WellShapedChild(n.states, fields.key);
    if !IsLeaf(c) { SomeLeaf(c, fields.val); }
  }

  /** A container region is done when all its leaves are final and directly below it. */
  lemma RegionDoneIs(r: Node, w: StateValue)
    requires WellShaped(r) && Wf(r, w)
    ensures RegionDone(r, w) <==>
      && r.kind == Compound
      && forall l :: l in TreeLeaves(r, w) ==> |l| == 1 && NodeAt(r, l).Some? && NodeAt(r, l).value.kind == Final
  {
    if r.kind == Compound {
      if w.Leaf? {
        assert [w.name][1..] == [];
        assert [w.name] in TreeLeaves(r, w);
      } else {
        var c := Get(r.states, w.fields.key).value;
        WellShapedChild(r.states, w.fields.key);
        SomeLeaf(c, w.fields.val);
        var inner := TreeLeaves(c, w.fields.val);
        assert TreeFieldLeaves(r, w.fields) == Under(w.fields.key, inner);
        assert Under(w.fields.key, inner)[0] == [w.fields.key] + inner[0];
        assert Under(w.fields.key, inner)[0] in TreeLeaves(r, w);
      }
    }
  }

  /** One region of an active parallel node is active, with its own value. */
  lemma RegionBelow(m: Machine, v: StateValue, p: Path, k: string)
    requires Running(m, v) && IsActive(LiveRoot(m), v, p)
    requires NodeAt(LiveRoot(m), p).Some? && NodeAt(LiveRoot(m), p).value.kind == Parallel
    requires Has(NodeAt(LiveRoot(m), p).value.states, k)
    ensures IsActive(LiveRoot(m), v, p + [k])
    ensures NodeAt(LiveRoot(m), p + [k]) == Get(NodeAt(LiveRoot(m), p).value.states, k)
    ensures ValueAt(v, p).Some? && ValueAt(v, p).value.Obj?
    ensures ValueAt(v, p + [k]).Some? && ValueAt(v, p + [k]) == Get(ValueAt(v, p).value.fields, k)
    ensures WfRegion(k, NodeAt(LiveRoot(m), p + [k]).value, ValueAt(v, p + [k]).value)
  {
    var root := LiveRoot(m);
    LiveRootShape(m);
    var n := NodeAt(root, p).value;
    WellShapedAt(root, p);
    ActiveNode(root, v, p);
    var fields := ValueAt(v, p).value.fields;
    RegionOf(n.states, fields, k);
    NodeAtConcat(root, p, [k]);
    assert [k][1..] == [];
    ActiveConcat(root, v, p, [k]);
    assert IsActive(n, ValueAt(v, p).value, [k]);
    ValueBelow(v, p, k);
  }

  lemma RegionScan(m: Machine, v: StateValue, p: Path, k: string)
    requires Running(m, v) && ReadableRegions(LiveRoot(m)) && IsActive(LiveRoot(m), v, p)
    requires NodeAt(LiveRoot(m), p).Some? && NodeAt(LiveRoot(m), p).value.kind == Parallel
    requires Has(NodeAt(LiveRoot(m), p).value.states, k)
    ensures ValueAt(v, p).Some? && ValueAt(v, p).value.Obj? && Has(ValueAt(v, p).value.fields, k)
    ensures
      var own := LeavesFrom(ActiveLeafPaths(m, v, []), p + [k]);
      (own != [] && (forall i :: 0 <= i < |own| ==> IsBranchFinalAt(m, p + [k], own[i])))
      <==> RegionDone(Get(NodeAt(LiveRoot(m), p).value.states, k).value, Get(ValueAt(v, p).value.fields, k).value)
  {
    var q := p + [k];
    RegionBelow(m, v, p, k);
    LiveRootShape(m);
    LeavesOf(m, v, q);
    if IsLeaf(NodeAt(LiveRoot(m), q).value) {
      LeafRegionScan(m, v, q);
    } else {
      LeavesBelowAre(LiveRoot(m), v, q);
      WellShapedAt(LiveRoot(m), q);
      FinalBelow(m, q, NodeAt(LiveRoot(m), q).value, ValueAt(v, q).value);
    }
  }

  /** A region that is a leaf is its own only leaf. */
  lemma LeafRegionScan(m: Machine, v: StateValue, q: Path)
    requires Running(m, v) && ReadableRegions(LiveRoot(m)) && q != [] && IsActive(LiveRoot(m), v, q)
    requires NodeAt(LiveRoot(m), q).Some? && IsLeaf(NodeAt(LiveRoot(m), q).value)
    ensures var own := LeavesFrom(ActiveLeafPaths(m, v, []), q);
      (own != [] && (forall i :: 0 <= i < |own| ==> IsBranchFinalAt(m, q, own[i])))
      <==> NodeAt(LiveRoot(m), q).value.kind == Final
  {
    var root := LiveRoot(m);
    var leaves := ActiveLeafPaths(m, v, []);
    var own := LeavesFrom(leaves, q);
    LiveRootShape(m);
    LiveLookup(m, q);
    LeavesOf(m, v, q);
    var j :| 0 <= j < |leaves| && q <= leaves[j];
    LeavesFromMember(leaves, q, leaves[j]);
    forall i | 0 <= i < |own| ensures own[i] == q {
      LeavesFromMember(leaves, q, own[i]);
      NoneBelowLeaf(m, v, q, own[i]);
    }
    assert own[0] == q;
  }

  lemma NoneBelowLeaf(m: Machine, v: StateValue, q: Path, leaf: Path)
    requires Running(m, v) && ReadableRegions(LiveRoot(m))
    requires NodeAt(LiveRoot(m), q).Some? && IsLeaf(NodeAt(LiveRoot(m), q).value)
    requires leaf in ActiveLeafPaths(m, v, []) && q <= leaf
    ensures leaf == q
  {
    LiveRootShape(m);
    LeavesOf(m, v, leaf);
    assert leaf <= leaf;
    if leaf != q {
      ProperPrefix(q, leaf);
      assert leaf[..|q|] == q;
      ActivePrefix(LiveRoot(m), v, leaf, |q|);
    }
  }

  lemma {:induction false} LeavesFromMember(leaves: seq<Path>, p: Path, l: Path)
    ensures l in LeavesFrom(leaves, p) <==> l in leaves && p <= l
  {
    if leaves != [] { LeavesFromMember(leaves[1..], p, l); }
  }

  lemma FinalBelow(m: Machine, q: Path, region: Node, w: StateValue)
    requires ValidTree(m) && q != [] && NodeAt(LiveRoot(m), q) == Some(region) && WellShaped(region) && Wf(region, w)
    ensures var own := Below(q, TreeLeaves(region, w));
      (own != [] && (forall i :: 0 <= i < |own| ==> IsBranchFinalAt(m, q, own[i]))) <==> RegionDone(region, w)
  {
    var inner := TreeLeaves(region, w);
    RegionDoneIs(region, w);
    SomeLeaf(region, w);
    forall i | 0 <= i < |inner| ensures IsBranchFinalAt(m, q, Below(q, inner)[i]) <==>
      region.kind == Compound && |inner[i]| == 1 && NodeAt(region, inner[i]).Some? && NodeAt(region, inner[i]).value.kind == Final
    {
      FinalAtBranch(m, q, region, inner[i]);
    }
    var own := Below(q, inner);
    if RegionDone(region, w) {
      forall i | 0 <= i < |inner| ensures IsBranchFinalAt(m, q, own[i]) { assert inner[i] in inner; }
    }
    if forall i :: 0 <= i < |own| ==> IsBranchFinalAt(m, q, own[i]) {
      assert IsBranchFinalAt(m, q, own[0]);
      forall l | l in inner ensures |l| == 1 && NodeAt(region, l).Some? && NodeAt(region, l).value.kind == Final {
        var i :| 0 <= i < |inner| && inner[i] == l;
        assert IsBranchFinalAt(m, q, own[i]);
      }
    }
  }

  lemma FinalAtBranch(m: Machine, q: Path, region: Node, l: Path)
    requires ValidTree(m) && q != [] && NodeAt(LiveRoot(m), q) == Some(region) && !IsLeaf(region) && l != []
    ensures IsBranchFinalAt(m, q, q + l) <==>
      region.kind == Compound && |l| == 1 && NodeAt(region, l).Some? && NodeAt(region, l).value.kind == Final
  {
    NodeAtConcat(LiveRoot(m), q, l);
    LiveLookup(m, q);
    LiveLookup(m, q + l);
    if |l| == 1 { assert q + l == q + [(q + l)[|q + l| - 1]]; }
  }

  lemma {:induction false} ValueBelow(v: StateValue, p: Path, k: string)
    requires ValueAt(v, p).Some? && ValueAt(v, p).value.Obj?
    ensures ValueAt(v, p + [k]) == Get(ValueAt(v, p).value.fields, k)
    decreases |p|
  {
    if p == [] {
      assert p + [k] == [k] && [k][1..] == [];
    } else {
      assert (p + [k])[1..] == p[1..] + [k];
      ValueBelow(Get(v.fields, p[0]).value, p[1..], k);
    }
  }

  /** Main equivalence: for an active container the scan finds it done exactly when it has an
      `onDone` and its configuration is complete. */
  lemma ScanIsComplete(m: Machine, v: StateValue, p: Path)
    requires Running(m, v) && ReadableRegions(LiveRoot(m)) && p != [] && IsActive(LiveRoot(m), v, p)
    requires NodeAt(LiveRoot(m), p).Some? && !IsLeaf(NodeAt(LiveRoot(m), p).value)
    ensures DoneByScan(m, ActiveLeafPaths(m, v, []), p) <==> Ready(m, v, p)
  {
    var root := LiveRoot(m);
    LiveRootShape(m);
    LiveLookup(m, p);
    ActiveNode(root, v, p);
    WellShapedAt(root, p);
    var n := NodeAt(root, p).value;
    if n.kind == Compound {
      CompoundScan(m, v, p);
    } else {
      ParallelScan(m, v, p, n.states);
      forall k ensures Has(n.states, k) <==> k in Keys(n.states) { HasIsKey(n.states, k); }
    }
  }

  lemma CompoundScan(m: Machine, v: StateValue, p: Path)
    requires Running(m, v) && ReadableRegions(LiveRoot(m)) && p != [] && IsActive(LiveRoot(m), v, p)
    requires NodeAt(LiveRoot(m), p).Some? && NodeAt(LiveRoot(m), p).value.kind == Compound
    requires ValueAt(v, p).Some? && Wf(NodeAt(LiveRoot(m), p).value, ValueAt(v, p).value)
    ensures
      var own := LeavesStrictlyBelow(ActiveLeafPaths(m, v, []), p);
      (|own| == 1 && IsFinalPath(m, own[0])) <==> OneFinalLeaf(NodeAt(LiveRoot(m), p).value, ValueAt(v, p).value)
  {
    var root := LiveRoot(m);
    LiveRootShape(m);
    var n := NodeAt(root, p).value;
    WellShapedAt(root, p);
    LeavesOf(m, v, p);
    if p in TreeLeaves(root, v) { LeafKinds(root, v, p); }
    NoLeafAtContainer(TreeLeaves(root, v), p);
    LeavesBelowAre(root, v, p);
    OneFinalLeafIs(n, ValueAt(v, p).value);
    var inner := TreeLeaves(n, ValueAt(v, p).value);
    assert LeavesStrictlyBelow(ActiveLeafPaths(m, v, []), p) == Below(p, inner);
    if |inner| == 1 {
      assert Below(p, inner)[0] == p + inner[0];
      NodeAtConcat(root, p, inner[0]);
      LiveLookup(m, p);
      LiveLookup(m, p + inner[0]);
    }
  }

  lemma {:induction false} ParallelScan(m: Machine, v: StateValue, p: Path, regions: Record<Node>)
    requires Running(m, v) && ReadableRegions(LiveRoot(m)) && IsActive(LiveRoot(m), v, p)
    requires NodeAt(LiveRoot(m), p).Some? && NodeAt(LiveRoot(m), p).value.kind == Parallel
    requires DistinctKeys(regions)
    requires forall k :: Has(regions, k) ==> Get(NodeAt(LiveRoot(m), p).value.states, k) == Get(regions, k)
    ensures ValueAt(v, p).Some? && ValueAt(v, p).value.Obj?
    ensures RegionsDone(m, ActiveLeafPaths(m, v, []), p, regions) <==>
      forall k :: Has(regions, k) ==>
        Has(ValueAt(v, p).value.fields, k) && RegionDone(Get(regions, k).value, Get(ValueAt(v, p).value.fields, k).value)
    decreases regions
  {
    LiveRootShape(m);
    ActiveNode(LiveRoot(m), v, p);
    match regions
    case Empty =>
    case Field(k, c, rest) =>
      assert Has(regions, k);
      RegionScan(m, v, p, k);
      forall j | Has(rest, j) ensures Get(NodeAt(LiveRoot(m), p).value.states, j) == Get(rest, j) { assert Has(regions, j); }
      ParallelScan(m, v, p, rest);
      assert forall j :: Has(regions, j) <==> j == k || Has(rest, j);
  }

  // ---- The container chosen ----

  lemma {:induction false} ContainersAre(leaves: seq<Path>, seen: seq<Path>, p: Path)
    requires forall i :: 0 <= i < |leaves| ==> leaves[i] != []
    ensures p in Containers(leaves, seen) <==> p in seen || (p != [] && exists i :: 0 <= i < |leaves| && p < leaves[i])
    decreases |leaves|
  {
    if leaves != [] {
      var leaf := leaves[0];
      AddNewMembers(seen, ProperPrefixes(leaf), p);
      ContainersAre(leaves[1..], AddNew(seen, ProperPrefixes(leaf)), p);
      assert p in ProperPrefixes(leaf) <==> p != [] && p < leaf by {
        if p != [] && p < leaf { assert ProperPrefixes(leaf)[|leaf| - 1 - |p|] == p; }
      }
      if i :| 0 < i < |leaves| && p < leaves[i] { assert leaves[1..][i - 1] == leaves[i]; }
    }
  }

  lemma {:induction false} OfLengthAre(ps: seq<Path>, len: nat, p: Path)
    ensures p in OfLength(ps, len) <==> p in ps && |p| == len
  {
    if ps != [] { OfLengthAre(ps[1..], len, p); }
  }

  lemma {:induction false} DeepestFirstAre(ps: seq<Path>, len: nat, p: Path)
    ensures p in DeepestFirst(ps, len) <==> p in ps && |p| <= len
  {
    OfLengthAre(ps, len, p);
    if len > 0 { DeepestFirstAre(ps, len - 1, p); }
  }

  lemma {:induction false} DeepestFirstSorted(ps: seq<Path>, len: nat)
    ensures forall i, j :: 0 <= i <= j < |DeepestFirst(ps, len)| ==> |DeepestFirst(ps, len)[i]| >= |DeepestFirst(ps, len)[j]|
  {
    var first := OfLength(ps, len);
    forall i | 0 <= i < |first| ensures |first[i]| == len { OfLengthAre(ps, len, first[i]); }
    if len > 0 {
      DeepestFirstSorted(ps, len - 1);
      var rest := DeepestFirst(ps, len - 1);
      forall i | 0 <= i < |rest| ensures |rest[i]| <= len - 1 { DeepestFirstAre(ps, len - 1, rest[i]); }
    }
  }

  lemma {:induction false} FirstDoneIs(m: Machine, leaves: seq<Path>, ps: seq<Path>)
    ensures FirstDone(m, leaves, ps).None? ==> forall p :: p in ps ==> !DoneByScan(m, leaves, p)
    ensures FirstDone(m, leaves, ps).Some? ==>
      exists i :: 0 <= i < |ps| && FirstDone(m, leaves, ps).value == ps[i] && DoneByScan(m, leaves, ps[i])
                  && forall j :: 0 <= j < i ==> !DoneByScan(m, leaves, ps[j])
  {
    if ps != [] {
      FirstDoneIs(m, leaves, ps[1..]);
      if DoneByScan(m, leaves, ps[0]) {
        assert FirstDone(m, leaves, ps).value == ps[0];
      } else if FirstDone(m, leaves, ps[1..]).Some? {
        var i :| 0 <= i < |ps[1..]| && FirstDone(m, leaves, ps[1..]).value == ps[1..][i] && DoneByScan(m, leaves, ps[1..][i])
                  && forall j :: 0 <= j < i ==> !DoneByScan(m, leaves, ps[1..][j]);
        forall j | 0 <= j < i + 1 ensures !DoneByScan(m, leaves, ps[j]) {
          if j > 0 { assert ps[j] == ps[1..][j - 1]; }
        }
        assert ps[i + 1] == ps[1..][i];
      }
    }
  }

  /** The candidates are exactly the active containers. */
  lemma CandidatesAre(m: Machine, v: StateValue, p: Path)
    requires Running(m, v) && ReadableRegions(LiveRoot(m))
    ensures p in Containers(ActiveLeafPaths(m, v, []), []) <==>
      p != [] && IsActive(LiveRoot(m), v, p) && NodeAt(LiveRoot(m), p).Some? && !IsLeaf(NodeAt(LiveRoot(m), p).value)
  {
    var root := LiveRoot(m);
    var leaves := ActiveLeafPaths(m, v, []);
    LiveRootShape(m);
    ContainersAre(leaves, [], p);
    LeavesOf(m, v, p);
    if i :| 0 <= i < |leaves| && p < leaves[i] {
      LeavesOf(m, v, leaves[i]);
      assert leaves[i] <= leaves[i];
      ActivePrefix(root, v, leaves[i], |p|);
      assert leaves[i][..|p|] == p;
    }
    if p != [] && IsActive(root, v, p) && NodeAt(root, p).Some? && !IsLeaf(NodeAt(root, p).value) {
      var i :| 0 <= i < |leaves| && p <= leaves[i];
      assert leaves[i] in TreeLeaves(root, v);
      LeafKinds(root, v, leaves[i]);
      ProperPrefix(p, leaves[i]);
      assert exists j :: 0 <= j < |leaves| && p < leaves[j];
    }
  }

  lemma ProperPrefix(p: Path, q: Path)
    requires p <= q && p != q
    ensures p < q
  {}

  lemma SortedCandidates(m: Machine, v: StateValue, sorted: seq<Path>, p: Path)
    requires Running(m, v) && ReadableRegions(LiveRoot(m))
    requires var cs := Containers(ActiveLeafPaths(m, v, []), []); sorted == DeepestFirst(cs, MaxDepth(cs))
    ensures p in sorted && DoneByScan(m, ActiveLeafPaths(m, v, []), p) <==> Ready(m, v, p)
  {
    var containers := Containers(ActiveLeafPaths(m, v, []), []);
    CandidatesAre(m, v, p);
    DeepestFirstAre(containers, MaxDepth(containers), p);
    if p in containers {
      ScanIsComplete(m, v, p);
    }
  }

  lemma FirstIsDeepest(m: Machine, leaves: seq<Path>, sorted: seq<Path>, p: Path)
    requires forall i, j :: 0 <= i <= j < |sorted| ==> |sorted[i]| >= |sorted[j]|
    requires FirstDone(m, leaves, sorted).Some? && p in sorted && DoneByScan(m, leaves, p)
    ensures |p| <= |FirstDone(m, leaves, sorted).value|
  {
    FirstDoneIs(m, leaves, sorted);
    var i :| 0 <= i < |sorted| && FirstDone(m, leaves, sorted).value == sorted[i] && DoneByScan(m, leaves, sorted[i])
              && forall j :: 0 <= j < i ==> !DoneByScan(m, leaves, sorted[j]);
    var j :| 0 <= j < |sorted| && sorted[j] == p;
    assert i <= j;
  }

  /** Main result on completion: nothing is pending exactly when no active container with `onDone`
      is complete; otherwise a complete one of greatest depth is chosen. */
  lemma PendingIsDeepestComplete(m: Machine, v: StateValue)
    requires Running(m, v) && ReadableRegions(LiveRoot(m))
    ensures FindPendingOnDone(m, v).None? <==> forall p :: !Ready(m, v, p)
    ensures FindPendingOnDone(m, v).Some? ==>
      && Ready(m, v, FindPendingOnDone(m, v).value)
      && forall p :: Ready(m, v, p) ==> |p| <= |FindPendingOnDone(m, v).value|
  {
    var leaves := ActiveLeafPaths(m, v, []);
    var containers := Containers(leaves, []);
    var sorted := DeepestFirst(containers, MaxDepth(containers));
    FirstDoneIs(m, leaves, sorted);
    if FindPendingOnDone(m, v).Some? {
      var q := FindPendingOnDone(m, v).value;
      SortedCandidates(m, v, sorted, q);
      DeepestFirstSorted(containers, MaxDepth(containers));
      forall p | Ready(m, v, p) ensures |p| <= |q| {
        SortedCandidates(m, v, sorted, p);
        FirstIsDeepest(m, leaves, sorted, p);
      }
    } else {
      forall p ensures !Ready(m, v, p) { SortedCandidates(m, v, sorted, p); }
    }
  }

  // ---- The cascade ----

  /** Why the cascade stopped: nothing is pending, the pending `onDone` has no target, the limit is
      reached, or a target does not resolve (the source throws). */
  datatype Stop = Quiet | Untargeted | Capped | Unresolved

  datatype Cascaded = Cascaded(value: StateValue, taken: nat, stop: Stop)

  const CascadeLimit: nat := 20

  lemma {:induction false} FirstDoneExists(m: Machine, leaves: seq<Path>, ps: seq<Path>)
    ensures FirstDone(m, leaves, ps).Some? ==> DoneByScan(m, leaves, FirstDone(m, leaves, ps).value)
  {
    if ps != [] { FirstDoneExists(m, leaves, ps[1..]); }
  }

  /** The edge of the container that is pending. */
  function PendingEdge(m: Machine, v: StateValue): (e: Edge)
    requires FindPendingOnDone(m, v).Some?
    ensures FindPendingOnDone(m, v).value != []
  {
    var leaves := ActiveLeafPaths(m, v, []);
    var containers := Containers(leaves, []);
    FirstDoneExists(m, leaves, DeepestFirst(containers, MaxDepth(containers)));
    GetNodeByPath(m, FindPendingOnDone(m, v).value).value.onDone.value
  }

  /** One turn of the cascade: it stops, or goes on from `next` after running `effects`. */
  datatype Turn = Turn(next: StateValue, effects: seq<string>, stop: Option<Stop>)

  function TakeTurn(m: Machine, v: StateValue): Turn {
    match FindPendingOnDone(m, v)
    case None => Turn(v, [], Some(Quiet))
    case Some(p) =>
      var edge := PendingEdge(m, v);
      if edge.target == "" then Turn(v, edge.effects, Some(Untargeted))
      else match ApplyTarget(m, v, p, edge.target)
        case None => Turn(v, [], Some(Unresolved))
        case Some(applied) => Turn(applied.next, applied.exits + edge.effects + applied.entries, None)
  }

  /** At most `limit` turns, each given by `turn`. */
  function Repeat(turn: StateValue -> Turn, v: StateValue, limit: nat): Cascaded
    decreases limit
  {
    if limit == 0 then Cascaded(v, 0, Capped)
    else
      var now := turn(v);
      if now.stop.Some? then Cascaded(v, 0, now.stop.value)
      else
        var rest := Repeat(turn, now.next, limit - 1);
        rest.(taken := rest.taken + 1)
  }

  /** The effects of those turns. `told(k)` is what the handler of the k-th pending `onDone` adds
      before the effects of its transition. */
  function RepeatEffects(turn: StateValue -> Turn, v: StateValue, limit: nat, told: nat -> seq<string>, k: nat): seq<string>
    decreases limit
  {
    if limit == 0 then []
    else
      var now := turn(v);
      var own := if now.stop == Some(Quiet) then [] else told(k) + now.effects;
      if now.stop.Some? then own else own + RepeatEffects(turn, now.next, limit - 1, told, k + 1)
  }

  function Turns(m: Machine): StateValue -> Turn {
    v => TakeTurn(m, v)
  }

  function Cascade(m: Machine, v: StateValue, limit: nat): Cascaded {
    Repeat(Turns(m), v, limit)
  }

  function CascadeEffects(m: Machine, v: StateValue, limit: nat, told: nat -> seq<string>): seq<string> {
    RepeatEffects(Turns(m), v, limit, told, 0)
  }

  /** Every `onDone` target resolves to a state that is local to its container's regions. */
  ghost predicate OnDoneLocal(m: Machine) {
    forall p :: GetNodeByPath(m, p).Some? && GetNodeByPath(m, p).value.onDone.Some?
                && GetNodeByPath(m, p).value.onDone.value.target != "" ==>
      var t := ResolveTarget(m, Join(p), GetNodeByPath(m, p).value.onDone.value.target);
      t.Some? && LocalTo(LiveRoot(m), p, t.value)
  }

  /** A deepest complete container whose `onDone` has no target. */
  ghost predicate Stuck(m: Machine, v: StateValue, p: Path) {
    && Ready(m, v, p) && GetNodeByPath(m, p).Some? && GetNodeByPath(m, p).value.onDone.Some?
    && GetNodeByPath(m, p).value.onDone.value.target == ""
    && forall q :: Ready(m, v, q) ==> |q| <= |p|
  }

  ghost predicate StopsWell(m: Machine, c: Cascaded, limit: nat) {
    && Running(m, c.value) && c.taken <= limit
    && match c.stop
       case Quiet => forall p :: !Ready(m, c.value, p)
       case Untargeted => exists p :: Stuck(m, c.value, p)
       case Capped => c.taken == limit
       case Unresolved => false
  }

  lemma PendingStep(m: Machine, v: StateValue)
    requires Running(m, v) && ReadableRegions(LiveRoot(m)) && OnDoneLocal(m) && FindPendingOnDone(m, v).Some?
    ensures var p := FindPendingOnDone(m, v).value;
      p != [] && var edge := PendingEdge(m, v);
      && (edge.target == "" ==> Stuck(m, v, p))
      && (edge.target != "" ==>
            ApplyTarget(m, v, p, edge.target).Some? && Running(m, ApplyTarget(m, v, p, edge.target).value.next))
  {
    var p := FindPendingOnDone(m, v).value;
    var edge := PendingEdge(m, v);
    PendingIsDeepestComplete(m, v);
    assert Ready(m, v, p);
    LiveLookup(m, p);
    if edge.target != "" {
      var t := ResolveTarget(m, Join(p), edge.target).value;
      ResolvedExists(m, Join(p), edge.target);
      ActiveSource(m, v, p, t);
      LocalIsSafe(m, v, p, t);
      NextIsWellFormedIff(m, v, p, t);
    }
  }

  /** Repeating a turn that keeps `good`: the last value is good, and the turns stop by themselves
      there unless the limit was used up. */
  lemma {:induction false} RepeatKeeps(turn: StateValue -> Turn, good: StateValue -> bool, v: StateValue, limit: nat)
    requires good(v)
    requires forall x :: good(x) && turn(x).stop.None? ==> good(turn(x).next)
    requires forall x :: turn(x).stop != Some(Capped)
    ensures var c := Repeat(turn, v, limit);
      && good(c.value) && c.taken <= limit
      && (c.stop == Capped ==> c.taken == limit)
      && (c.stop != Capped ==> turn(c.value).stop == Some(c.stop))
    decreases limit
  {
    if limit > 0 && turn(v).stop.None? { RepeatKeeps(turn, good, turn(v).next, limit - 1); }
  }

  lemma TurnIsSafe(m: Machine, v: StateValue)
    requires Running(m, v) && ReadableRegions(LiveRoot(m)) && OnDoneLocal(m)
    ensures var turn := Turns(m)(v);
      && (turn.stop.None? ==> Running(m, turn.next))
      && (turn.stop == Some(Quiet) ==> forall p :: !Ready(m, v, p))
      && (turn.stop == Some(Untargeted) ==> exists p :: Stuck(m, v, p))
      && turn.stop != Some(Unresolved)
  {
    if FindPendingOnDone(m, v).Some? {
      PendingStep(m, v);
    } else {
      PendingIsDeepestComplete(m, v);
    }
  }

  /** Main result on the cascade: it keeps the configuration well formed, and stops only when
      nothing is pending, at a deepest complete container whose `onDone` has no target, or after
      exactly as many transitions as the limit allows. */
  lemma CascadeIsSafe(m: Machine, v: StateValue, limit: nat)
    requires Running(m, v) && ReadableRegions(LiveRoot(m)) && OnDoneLocal(m)
    ensures StopsWell(m, Cascade(m, v, limit), limit)
  {
    forall x | Running(m, x) && Turns(m)(x).stop.None? ensures Running(m, Turns(m)(x).next) {
      TurnIsSafe(m, x);
    }
    RepeatKeeps(Turns(m), (x: StateValue) => Running(m, x), v, limit);
    TurnIsSafe(m, Cascade(m, v, limit).value);
  }

  // ---- The settled status ----

  datatype Status = Idle | InFlight | Completed | Compensating | Compensated | Failed

  predicate AllFinal(m: Machine, leaves: seq<Path>) {
    forall i :: 0 <= i < |leaves| ==> IsFinalPath(m, leaves[i])
  }

  function ResolveSettledStatus(m: Machine, v: StateValue, wasCompensated: bool): Status {
    if wasCompensated then Compensated
    else if v == Leaf(ErrorKey) && Has(m.states, ErrorKey) then Failed
    else
      var leaves := ActiveLeafPaths(m, v, []);
      if |leaves| > 0 && AllFinal(m, leaves) then Completed else Idle
  }

  /** No active leaf is left to act. */
  ghost predicate EverythingFinal(m: Machine, v: StateValue) {
    forall p :: IsActive(LiveRoot(m), v, p) && NodeAt(LiveRoot(m), p).Some? && IsLeaf(NodeAt(LiveRoot(m), p).value)
      ==> NodeAt(LiveRoot(m), p).value.kind == Final
  }

  /** What each settled status says about the configuration. */
  lemma SettledStatusMeaning(m: Machine, v: StateValue, wasCompensated: bool)
    requires Running(m, v) && ReadableRegions(LiveRoot(m)) && Has(m.states, ErrorKey)
    ensures var s := ResolveSettledStatus(m, v, wasCompensated);
      && (s == Compensated <==> wasCompensated)
      && (s == Failed <==> !wasCompensated && v == Leaf(ErrorKey))
      && (s == Completed <==> !wasCompensated && v != Leaf(ErrorKey) && EverythingFinal(m, v))
      && s in {Compensated, Failed, Completed, Idle}
  {
    var root := LiveRoot(m);
    var leaves := ActiveLeafPaths(m, v, []);
    LiveRootShape(m);
    LeavesOf(m, v, []);
    SomeLeaf(root, v);
    if AllFinal(m, leaves) {
      forall p | IsActive(root, v, p) && NodeAt(root, p).Some? && IsLeaf(NodeAt(root, p).value)
        ensures NodeAt(root, p).value.kind == Final
      {
        LeavesOf(m, v, p);
        var i :| 0 <= i < |leaves| && p <= leaves[i];
        LeavesOf(m, v, leaves[i]);
        assert leaves[i] <= leaves[i];
        if p != leaves[i] {
          ProperPrefix(p, leaves[i]);
          assert leaves[i][..|p|] == p;
          ActivePrefix(root, v, leaves[i], |p|);
        }
        LiveLookup(m, p);
      }
    }
    if EverythingFinal(m, v) {
      forall i | 0 <= i < |leaves| ensures IsFinalPath(m, leaves[i]) {
        LeavesOf(m, v, leaves[i]);
        assert leaves[i] <= leaves[i];
        LeafKinds(root, v, leaves[i]);
        LiveLookup(m, leaves[i]);
      }
    }
  }
}
