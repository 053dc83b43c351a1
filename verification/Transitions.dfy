/** Applying a transition to a resolved target (engine/statechart.ts, applyTargetTransition,
    extractSubStateObject and replaceAtLca) as functions; EngineLoops.dfy has the loops. */
module Transitions {
  import opened Records
  import opened Machines
  import opened PathLists
  import opened Configurations
  import opened Entry

  /** Length of the common ancestor path: strictly shorter than both paths, so that a
      self-transition leaves and re-enters its node. */
  function CommonLen(s: Path, t: Path, from: nat): (c: nat)
    requires from < |s| && from < |t| && s[..from] == t[..from]
    ensures from <= c < |s| && c < |t| && s[..c] == t[..c]
    ensures c + 1 < |s| && c + 1 < |t| ==> s[c] != t[c]
    decreases |t| - from
  {
    if from + 1 < |s| && from + 1 < |t| && s[from] == t[from] then CommonLen(s, t, from + 1) else from
  }

  function LcaLen(s: Path, t: Path): nat
    requires s != [] && t != []
  {
    CommonLen(s, t, 0)
  }

  /** extractSubStateObject: the object stored under `p`, or an empty one. */
  function SubObject(v: StateValue, p: Path): Record<StateValue>
    decreases |p|
  {
    if p == [] then (if v.Obj? then v.fields else Empty)
    else if v.Obj? && Has(v.fields, p[0]) then SubObject(Get(v.fields, p[0]).value, p[1..])
    else Empty
  }

  /** The nested value for `t[i..]`, as the parent of `t[i]` records it. */
  function BuiltBranch(m: Machine, cur: StateValue, t: Path, i: nat): StateValue
    requires i < |t| && GetNodeByPath(m, t).Some?
    decreases |t| - i
  {
    if i == |t| - 1 then Branch(t[i], EnterSubtree(GetNodeByPath(m, t).value).sub)
    else
      var inner := BuiltBranch(m, cur, t, i + 1);
      var ancestor := GetNodeByPath(m, t[..i + 1]);
      if ancestor.Some? && ancestor.value.kind == Parallel then
        var regions := Put(SubObject(cur, t[..i + 1]), t[i + 1], RegionValue(inner, t[i + 1]));
        Obj(Field(t[i], Obj(regions), Empty))
      else
        Obj(Field(t[i], inner, Empty))
  }

  function RegionValue(branch: StateValue, region: string): StateValue {
    if branch.Obj? && Has(branch.fields, region) then Get(branch.fields, region).value else branch
  }

  function ReplaceAtLca(m: Machine, cur: StateValue, lca: Path, depth: nat, branch: StateValue): StateValue
    requires depth < |lca|
    decreases |lca| - depth
  {
    var key := lca[depth];
    var node := GetNodeByPath(m, lca[..depth + 1]);
    if depth == |lca| - 1 then
      if node.Some? && node.value.kind == Parallel && cur.Obj? && branch.Obj? && branch.fields.Field? then
        var prior := Get(cur.fields, key);
        var regions := if prior.Some? && prior.value.Obj? then prior.value.fields else Empty;
        Obj(Put(cur.fields, key, Obj(Put(regions, branch.fields.key, branch.fields.val))))
      else SetField(cur, key, branch)
    else
      var sub := if cur.Obj? && Has(cur.fields, key) then Get(cur.fields, key).value else Leaf("");
      SetField(cur, key, ReplaceAtLca(m, sub, lca, depth + 1, branch))
  }

  function SetField(cur: StateValue, key: string, val: StateValue): StateValue {
    if cur.Obj? then Obj(Put(cur.fields, key, val)) else Obj(Field(key, val, Empty))
  }

  /** The next configuration when `s` takes a transition to `t`. */
  function NextValue(m: Machine, cur: StateValue, s: Path, t: Path): StateValue
    requires s != [] && GetNodeByPath(m, t).Some?
  {
    var c := LcaLen(s, t);
    var branch := BuiltBranch(m, cur, t, c);
    if c > 0 then ReplaceAtLca(m, cur, t[..c], 0, branch)
    else if m.kind == Parallel && cur.Obj? then Obj(Put(cur.fields, t[0], RegionValue(branch, t[0])))
    else branch
  }

  // ---- The replacement seen from the tree ----

  /** `branch` placed below the node itself: next to the other regions of a parallel node,
      instead of the active child of a compound one. */
  function PlaceBelow(n: Node, v: StateValue, branch: StateValue): StateValue {
    if n.kind == Parallel && v.Obj? && branch.Obj? && branch.fields.Field?
    then Obj(Put(v.fields, branch.fields.key, branch.fields.val))
    else branch
  }

  /** `branch` placed below the descendant at `p`. */
  function Splice(n: Node, v: StateValue, p: Path, branch: StateValue): StateValue
    decreases |p|
  {
    if p == [] then PlaceBelow(n, v, branch)
    else if v.Obj? && Has(v.fields, p[0]) && Has(n.states, p[0]) then
      Obj(Put(v.fields, p[0], Splice(Get(n.states, p[0]).value, Get(v.fields, p[0]).value, p[1..], branch)))
    else v
  }

  lemma {:induction false} PutRegion(rs: Record<Node>, f: Record<StateValue>, key: string, w: StateValue)
    requires WfRegions(rs, f) && Has(rs, key)
    ensures WfRegions(rs, Put(f, key, w)) <==> WfRegion(key, Get(rs, key).value, w)
  {
    if rs.key != key { PutRegion(rs.rest, f.rest, key, w); }
  }

  lemma {:induction false} SubObjectIsValueAt(v: StateValue, p: Path)
    ensures SubObject(v, p) == if ValueAt(v, p).Some? && ValueAt(v, p).value.Obj? then ValueAt(v, p).value.fields else Empty
    decreases |p|
  {
    if p != [] && v.Obj? && Has(v.fields, p[0]) {
      SubObjectIsValueAt(Get(v.fields, p[0]).value, p[1..]);
    }
  }

  /** The replacement is well formed exactly when the replaced part is. */
  lemma {:induction false} SpliceWf(n: Node, v: StateValue, p: Path, branch: StateValue)
    requires WellShaped(n) && Wf(n, v) && IsActive(n, v, p)
    requires NodeAt(n, p).Some? && !IsLeaf(NodeAt(n, p).value) && ValueAt(v, p).Some?
    ensures Wf(n, Splice(n, v, p, branch))
       <==> Wf(NodeAt(n, p).value, PlaceBelow(NodeAt(n, p).value, ValueAt(v, p).value, branch))
    decreases |p|
  {
    if p != [] {
      var c := Get(n.states, p[0]).value;
      WellShapedChild(n.states, p[0]);
      if IsLeaf(c) {
        assert false;
      } else {
        var sub := Get(v.fields, p[0]).value;
        if n.kind == Parallel { RegionOf(n.states, v.fields, p[0]); }
        SpliceWf(c, sub, p[1..], branch);
        if n.kind == Parallel { PutRegion(n.states, v.fields, p[0], Splice(c, sub, p[1..], branch)); }
      }
    }
  }

  /** Outside the replaced part nothing changes. */
  lemma {:induction false} SpliceActive(n: Node, v: StateValue, p: Path, branch: StateValue, q: Path)
    requires WellShaped(n) && Wf(n, v) && IsActive(n, v, p)
    requires NodeAt(n, p).Some? && !IsLeaf(NodeAt(n, p).value) && ValueAt(v, p).Some?
    ensures IsActive(n, Splice(n, v, p, branch), q) <==>
      if p <= q then IsActive(NodeAt(n, p).value, PlaceBelow(NodeAt(n, p).value, ValueAt(v, p).value, branch), q[|p|..])
      else IsActive(n, v, q)
    decreases |p|
  {
    if p != [] && q != [] {
      var c := Get(n.states, p[0]).value;
      WellShapedChild(n.states, p[0]);
      if IsLeaf(c) {
        assert false;
      } else {
        var sub := Get(v.fields, p[0]).value;
        if n.kind == Parallel { RegionOf(n.states, v.fields, p[0]); }
        GetPut(v.fields, p[0], Splice(c, sub, p[1..], branch), q[0]);
        SpliceActive(c, sub, p[1..], branch, q[1..]);
        assert p <= q <==> p[0] == q[0] && p[1..] <= q[1..];
        if p <= q { assert q[|p|..] == q[1..][|p[1..]|..]; }
      }
    } else if p == [] {
      assert q[|p|..] == q;
    }
  }

  lemma {:induction false} ReplaceIsSplice(m: Machine, n: Node, v: StateValue, lca: Path, depth: nat, branch: StateValue)
    requires ValidTree(m) && depth < |lca| && NodeAt(LiveRoot(m), lca[..depth]) == Some(n)
    requires WellShaped(n) && Wf(n, v) && IsActive(n, v, lca[depth..])
    requires NodeAt(n, lca[depth..]).Some? && !IsLeaf(NodeAt(n, lca[depth..]).value)
    ensures ReplaceAtLca(m, v, lca, depth, branch) == Splice(n, v, lca[depth..], branch)
    decreases |lca| - depth
  {
    var key := lca[depth];
    var rest := lca[depth..];
    assert rest[0] == key && rest[1..] == lca[depth + 1..];
    var c := Get(n.states, key).value;
    WellShapedChild(n.states, key);
    assert lca[..depth + 1] == lca[..depth] + [key];
    NodeAtConcat(LiveRoot(m), lca[..depth], [key]);
    assert [key][1..] == [];
    LiveLookup(m, lca[..depth + 1]);
    if IsLeaf(c) {
      assert false;
    } else {
      if n.kind == Parallel { RegionOf(n.states, v.fields, key); }
      if depth < |lca| - 1 {
        ReplaceIsSplice(m, c, Get(v.fields, key).value, lca, depth + 1, branch);
      } else {
        assert rest[1..] == [];
      }
    }
  }

  // ---- When the next configuration is well formed ----

  /** A parallel ancestor of the target that is rebuilt keeps its other regions: it is active, or
      it has none. */
  predicate Rebuildable(n: Node, cur: StateValue, p: Path)
    requires NodeAt(n, p).Some?
  {
    var a := NodeAt(n, p).value;
    a.kind == Parallel ==> IsActive(n, cur, p) || (a.states.Field? && a.states.rest.Empty?)
  }

  predicate RebuildableFrom(n: Node, cur: StateValue, t: Path, i: nat)
    requires NodeAt(n, t).Some?
    decreases |t| - i
  {
    i + 1 >= |t| || (
      NodeAtConcat(n, t[..i + 1], t[i + 1..]);
      assert t[..i + 1] + t[i + 1..] == t;
      Rebuildable(n, cur, t[..i + 1]) && RebuildableFrom(n, cur, t, i + 1))
  }

  /** Walking down `p`, the value ends in a leaf: the nearest active state above `p` has a leaf as
      its active child. */
  predicate MeetsLeaf(v: StateValue, p: Path)
    decreases |p|
  {
    p != [] && (v.Leaf? || (Has(v.fields, p[0]) && MeetsLeaf(Get(v.fields, p[0]).value, p[1..])))
  }

  /** A leaf that is directly a region of the common ancestor. */
  predicate BareRegion(n: Node, t: Path, c: nat)
    requires c < |t| && NodeAt(n, t).Some?
  {
    c > 0 && |t| == c + 1 && IsLeaf(NodeAt(n, t).value)
    && NodeAt(n, t[..c]).Some? && NodeAt(n, t[..c]).value.kind == Parallel
  }

  /** The guard, which a caller can check before the call. The common ancestor is active, or was left
      for a leaf; every parallel ancestor of the target is active or has a single region; and the
      target is not a bare region. */
  predicate SafeTarget(m: Machine, cur: StateValue, s: Path, t: Path)
    requires s != [] && GetNodeByPath(m, t).Some?
  {
    var c := LcaLen(s, t);
    var root := LiveRoot(m);
    && NodeAt(root, t).Some?
    && RebuildableFrom(root, cur, t, 0)
    && !BareRegion(root, t, c)
    && (IsActive(root, cur, t[..c]) || MeetsLeaf(cur, t[..c]))
  }

  /** The ancestors of an active node need no rebuilding. */
  lemma {:induction false} RebuildableAbove(n: Node, cur: StateValue, t: Path, i: nat, c: nat)
    requires WellShaped(n) && Wf(n, cur) && NodeAt(n, t).Some? && i <= c < |t| && IsActive(n, cur, t[..c])
    ensures RebuildableFrom(n, cur, t, i) <==> RebuildableFrom(n, cur, t, c)
    decreases c - i
  {
    if i < c {
      ActivePrefix(n, cur, t[..c], i + 1);
      assert t[..c][..i + 1] == t[..i + 1];
      AncestorShape(n, t, i + 1);
      RebuildableAbove(n, cur, t, i + 1, c);
    }
  }

  /** The branch at position `i` is a leaf key for a leaf target, otherwise an object with the
      single key `t[i]`. */
  lemma {:induction false} BranchShape(m: Machine, cur: StateValue, t: Path, i: nat)
    requires ValidTree(m) && i < |t|
    requires NodeAt(LiveRoot(m), t).Some? && GetNodeByPath(m, t) == NodeAt(LiveRoot(m), t)
    ensures var b := BuiltBranch(m, cur, t, i);
      if i == |t| - 1 && IsLeaf(NodeAt(LiveRoot(m), t).value) then b == Leaf(t[i])
      else b.Obj? && b.fields.Field? && b.fields.key == t[i] && b.fields.rest.Empty?
  {
    LiveRootShape(m);
    WellShapedAt(LiveRoot(m), t);
    EnterIsWellFormed(NodeAt(LiveRoot(m), t).value);
  }

  lemma {:induction false} BranchWf(m: Machine, cur: StateValue, t: Path, i: nat)
    requires ValidTree(m) && Wf(LiveRoot(m), cur) && i < |t|
    requires NodeAt(LiveRoot(m), t).Some? && GetNodeByPath(m, t) == NodeAt(LiveRoot(m), t)
    ensures NodeAt(LiveRoot(m), t[..i + 1]).Some?
    ensures var b := BuiltBranch(m, cur, t, i);
      if i == |t| - 1 && IsLeaf(NodeAt(LiveRoot(m), t).value) then b == Leaf(t[i])
      else (
        && b.Obj? && b.fields.Field? && b.fields.key == t[i] && b.fields.rest.Empty?
        && (Wf(NodeAt(LiveRoot(m), t[..i + 1]).value, b.fields.val) <==> RebuildableFrom(LiveRoot(m), cur, t, i)))
    decreases |t| - i
  {
    var root := LiveRoot(m);
    LiveRootShape(m);
    AncestorShape(root, t, i + 1);
    BranchShape(m, cur, t, i);
    if i == |t| - 1 {
      assert t[..i + 1] == t;
      EnterIsWellFormed(NodeAt(root, t).value);
    } else {
      BranchWf(m, cur, t, i + 1);
      BranchWfStep(m, cur, t, i);
    }
  }

  lemma BranchWfStep(m: Machine, cur: StateValue, t: Path, i: nat)
    requires ValidTree(m) && Wf(LiveRoot(m), cur) && i + 1 < |t|
    requires NodeAt(LiveRoot(m), t).Some? && GetNodeByPath(m, t) == NodeAt(LiveRoot(m), t)
    requires NodeAt(LiveRoot(m), t[..i + 1]).Some? && NodeAt(LiveRoot(m), t[..i + 2]).Some?
    requires var b := BuiltBranch(m, cur, t, i + 1);
      b.Obj? ==> (
        && b.fields.Field? && b.fields.key == t[i + 1] && b.fields.rest.Empty?
        && (Wf(NodeAt(LiveRoot(m), t[..i + 2]).value, b.fields.val) <==> RebuildableFrom(LiveRoot(m), cur, t, i + 1)))
    ensures BuiltBranch(m, cur, t, i).Obj? && BuiltBranch(m, cur, t, i).fields.Field?
    ensures Wf(NodeAt(LiveRoot(m), t[..i + 1]).value, BuiltBranch(m, cur, t, i).fields.val)
       <==> RebuildableFrom(LiveRoot(m), cur, t, i)
  {
    var root := LiveRoot(m);
    var key := t[i + 1];
    var b := BuiltBranch(m, cur, t, i + 1);
    LiveRootShape(m);
    AncestorShape(root, t, i + 1);
    LiveLookup(m, t[..i + 1]);
    BranchShape(m, cur, t, i + 1);
    if b.Leaf? {
      assert t[..i + 2] == t;
    } else if i + 2 == |t| {
      assert t[..i + 2] == t;
    } else {
      AncestorShape(root, t, i + 2);
    }
    if NodeAt(root, t[..i + 1]).value.kind == Parallel {
      RebuiltRegions(m, cur, t[..i + 1], key, RegionValue(b, key));
    }
  }

  /** Rebuilding the parallel node at `p` around one region. */
  lemma RebuiltRegions(m: Machine, cur: StateValue, p: Path, key: string, w: StateValue)
    requires ValidTree(m) && Wf(LiveRoot(m), cur)
    requires NodeAt(LiveRoot(m), p).Some? && NodeAt(LiveRoot(m), p).value.kind == Parallel
    requires Has(NodeAt(LiveRoot(m), p).value.states, key)
    ensures var a := NodeAt(LiveRoot(m), p).value;
      Wf(a, Obj(Put(SubObject(cur, p), key, w)))
      <==> Rebuildable(LiveRoot(m), cur, p) && WfRegion(key, Get(a.states, key).value, w)
  {
    var root := LiveRoot(m);
    LiveRootShape(m);
    var a := NodeAt(root, p).value;
    SubObjectIsValueAt(cur, p);
    if IsActive(root, cur, p) {
      ActiveNode(root, cur, p);
      PutRegion(a.states, SubObject(cur, p), key, w);
    } else {
      InactiveContainer(root, cur, p);
      WellShapedAt(root, p);
      assert Put(SubObject(cur, p), key, w) == Field(key, w, Empty);
      assert WfRegions(a.states, Field(key, w, Empty))
        <==> a.states.key == key && WfRegion(key, a.states.val, w) && a.states.rest.Empty?;
    }
  }

  /** Placing the branch below a common ancestor `l` of source and target. */
  lemma PlacedWf(m: Machine, cur: StateValue, t: Path, c: nat, v: StateValue)
    requires ValidTree(m) && Wf(LiveRoot(m), cur) && c < |t|
    requires NodeAt(LiveRoot(m), t).Some? && GetNodeByPath(m, t) == NodeAt(LiveRoot(m), t)
    requires NodeAt(LiveRoot(m), t[..c]).Some? && Wf(NodeAt(LiveRoot(m), t[..c]).value, v)
    ensures var l := NodeAt(LiveRoot(m), t[..c]).value;
      var b := BuiltBranch(m, cur, t, c);
      && (Wf(l, PlaceBelow(l, v, b)) <==> RebuildableFrom(LiveRoot(m), cur, t, c) && (b.Leaf? ==> l.kind == Compound))
      && (l.kind == Parallel ==>
            (Wf(l, Obj(Put(v.fields, t[c], RegionValue(b, t[c])))) <==> RebuildableFrom(LiveRoot(m), cur, t, c)))
    ensures BuiltBranch(m, cur, t, c).Leaf? <==> |t| == c + 1 && IsLeaf(NodeAt(LiveRoot(m), t).value)
  {
    var root := LiveRoot(m);
    var b := BuiltBranch(m, cur, t, c);
    LiveRootShape(m);
    BranchShape(m, cur, t, c);
    BranchAsChild(m, cur, t, c);
    AncestorShape(root, t, c);
    var l := NodeAt(root, t[..c]).value;
    if l.kind == Parallel { PutRegion(l.states, v.fields, t[c], RegionValue(b, t[c])); }
  }

  /** The branch as a child of the node above it. */
  lemma BranchAsChild(m: Machine, cur: StateValue, t: Path, c: nat)
    requires ValidTree(m) && Wf(LiveRoot(m), cur) && c < |t|
    requires NodeAt(LiveRoot(m), t).Some? && GetNodeByPath(m, t) == NodeAt(LiveRoot(m), t)
    ensures NodeAt(LiveRoot(m), t[..c]).Some? && Has(NodeAt(LiveRoot(m), t[..c]).value.states, t[c])
    ensures var l := NodeAt(LiveRoot(m), t[..c]).value;
      var b := BuiltBranch(m, cur, t, c);
      && (l.kind == Compound ==> (Wf(l, b) <==> RebuildableFrom(LiveRoot(m), cur, t, c)))
      && (WfRegion(t[c], Get(l.states, t[c]).value, RegionValue(b, t[c])) <==> RebuildableFrom(LiveRoot(m), cur, t, c))
  {
    var root := LiveRoot(m);
    LiveRootShape(m);
    BranchWf(m, cur, t, c);
    AncestorShape(root, t, c);
    BranchShape(m, cur, t, c);
    if |t| == c + 1 {
      assert t[..c + 1] == t;
    } else {
      AncestorShape(root, t, c + 1);
    }
  }

  /** The case of an active common ancestor. */
  lemma NextWfWhenActive(m: Machine, cur: StateValue, s: Path, t: Path)
    requires ValidTree(m) && Wf(LiveRoot(m), cur)
    requires s != [] && GetNodeByPath(m, t).Some? && NodeAt(LiveRoot(m), t).Some?
    requires IsActive(LiveRoot(m), cur, t[..LcaLen(s, t)])
    ensures Wf(LiveRoot(m), NextValue(m, cur, s, t)) <==>
      RebuildableFrom(LiveRoot(m), cur, t, LcaLen(s, t)) && !BareRegion(LiveRoot(m), t, LcaLen(s, t))
  {
    var root := LiveRoot(m);
    var c := LcaLen(s, t);
    var b := BuiltBranch(m, cur, t, c);
    LiveRootShape(m);
    LiveLookup(m, t);
    ActiveNode(root, cur, t[..c]);
    AncestorShape(root, t, c);
    PlacedWf(m, cur, t, c, ValueAt(cur, t[..c]).value);
    if c > 0 {
      assert t[..c][..0] == [];
      assert t[..c][0..] == t[..c];
      ReplaceIsSplice(m, root, cur, t[..c], 0, b);
      SpliceWf(root, cur, t[..c], b);
    }
  }

  // The common ancestor may be inactive: an earlier transition of the same event has left it.

  /** What the replacement stores for `t[..d + 1]` when nothing was stored there. */
  function Fresh(m: Machine, lca: Path, d: nat, branch: StateValue): StateValue
    requires d < |lca|
  {
    if d == |lca| - 1 then branch else ReplaceAtLca(m, Leaf(""), lca, d + 1, branch)
  }

  /** The fresh value is well formed when each parallel node on the way has a single region. */
  lemma {:induction false} FreshWf(m: Machine, cur: StateValue, t: Path, c: nat, d: nat)
    requires ValidTree(m) && Wf(LiveRoot(m), cur) && d < c < |t|
    requires NodeAt(LiveRoot(m), t).Some? && GetNodeByPath(m, t) == NodeAt(LiveRoot(m), t)
    requires !IsActive(LiveRoot(m), cur, t[..d + 1])
    ensures NodeAt(LiveRoot(m), t[..d + 1]).Some?
    ensures Wf(NodeAt(LiveRoot(m), t[..d + 1]).value, Fresh(m, t[..c], d, BuiltBranch(m, cur, t, c)))
      <==> RebuildableFrom(LiveRoot(m), cur, t, d) && !BareRegion(LiveRoot(m), t, c)
    decreases c - d
  {
    var root := LiveRoot(m);
    LiveRootShape(m);
    AncestorShape(root, t, d + 1);
    if d == c - 1 {
      FreshAncestor(m, cur, t, c);
    } else {
      assert t[..d + 2][..d + 1] == t[..d + 1];
      if IsActive(root, cur, t[..d + 2]) { ActivePrefix(root, cur, t[..d + 2], d + 1); }
      FreshWf(m, cur, t, c, d + 1);
      AncestorShape(root, t, d + 2);
      assert t[..c][d + 1] == t[d + 1];
      FreshStep(m, t, c, d, BuiltBranch(m, cur, t, c));
    }
  }

  lemma FreshStep(m: Machine, t: Path, c: nat, d: nat, b: StateValue)
    requires ValidTree(m) && d + 1 < c < |t| && NodeAt(LiveRoot(m), t).Some?
    ensures NodeAt(LiveRoot(m), t[..d + 1]).Some? && NodeAt(LiveRoot(m), t[..d + 2]).Some?
    ensures var a := NodeAt(LiveRoot(m), t[..d + 1]).value;
      Wf(a, Fresh(m, t[..c], d, b)) <==>
        (a.kind == Parallel ==> a.states.Field? && a.states.rest.Empty?)
        && Wf(NodeAt(LiveRoot(m), t[..d + 2]).value, Fresh(m, t[..c], d + 1, b))
  {
    var root := LiveRoot(m);
    LiveRootShape(m);
    AncestorShape(root, t, d + 1);
    AncestorShape(root, t, d + 2);
    var a := NodeAt(root, t[..d + 1]).value;
    var x := Fresh(m, t[..c], d + 1, b);
    assert t[..c][d + 1] == t[d + 1];
    assert Fresh(m, t[..c], d, b) == Obj(Field(t[d + 1], x, Empty));
    if a.kind == Parallel {
      assert WfRegions(a.states, Field(t[d + 1], x, Empty))
        <==> a.states.Field? && a.states.key == t[d + 1] && WfRegion(t[d + 1], a.states.val, x) && WfRegions(a.states.rest, Empty);
    }
  }

  /** The branch as the whole value of the common ancestor. */
  lemma FreshAncestor(m: Machine, cur: StateValue, t: Path, c: nat)
    requires ValidTree(m) && Wf(LiveRoot(m), cur) && 0 < c < |t|
    requires NodeAt(LiveRoot(m), t).Some? && GetNodeByPath(m, t) == NodeAt(LiveRoot(m), t)
    requires !IsActive(LiveRoot(m), cur, t[..c])
    ensures NodeAt(LiveRoot(m), t[..c]).Some?
    ensures Wf(NodeAt(LiveRoot(m), t[..c]).value, BuiltBranch(m, cur, t, c))
      <==> RebuildableFrom(LiveRoot(m), cur, t, c - 1) && !BareRegion(LiveRoot(m), t, c)
  {
    var root := LiveRoot(m);
    LiveRootShape(m);
    AncestorShape(root, t, c);
    BranchShape(m, cur, t, c);
    BranchAsChild(m, cur, t, c);
    var a := NodeAt(root, t[..c]).value;
    var b := BuiltBranch(m, cur, t, c);
    if a.kind == Parallel && b.Obj? {
      assert WfRegions(a.states, b.fields) <==>
        a.states.Field? && a.states.key == t[c] && WfRegion(t[c], a.states.val, b.fields.val) && WfRegions(a.states.rest, Empty);
    }
  }

  /** The replacement when the common ancestor is inactive, seen from the active node at depth `d`. */
  lemma {:induction false} NextWfWhenLeft(m: Machine, cur: StateValue, n: Node, v: StateValue, t: Path, c: nat, d: nat)
    requires ValidTree(m) && Wf(LiveRoot(m), cur) && d < c < |t|
    requires NodeAt(LiveRoot(m), t).Some? && GetNodeByPath(m, t) == NodeAt(LiveRoot(m), t)
    requires IsActive(LiveRoot(m), cur, t[..d]) && !IsActive(LiveRoot(m), cur, t[..c])
    requires NodeAt(LiveRoot(m), t[..d]) == Some(n) && ValueAt(cur, t[..d]) == Some(v) && WellShaped(n) && Wf(n, v)
    ensures Wf(n, ReplaceAtLca(m, v, t[..c], d, BuiltBranch(m, cur, t, c)))
      <==> MeetsLeaf(v, t[d..c]) && RebuildableFrom(LiveRoot(m), cur, t, d) && !BareRegion(LiveRoot(m), t, c)
    decreases c - d
  {
    var root := LiveRoot(m);
    var key := t[d];
    LiveRootShape(m);
    AncestorShape(root, t, d);
    AncestorShape(root, t, d + 1);
    assert t[..c][d] == key && t[d..c][0] == key && t[d..c][1..] == t[d + 1..c];
    assert t[..d + 1] == t[..d] + [key] && [key][1..] == [];
    ActiveConcat(root, cur, t[..d], [key]);
    if IsActive(root, cur, t[..d + 1]) {
      assert d + 1 < c;
      ActiveNode(root, cur, t[..d + 1]);
      ValueStep(cur, t[..d], key);
      NextWfWhenLeft(m, cur, NodeAt(root, t[..d + 1]).value, Get(v.fields, key).value, t, c, d + 1);
      if n.kind == Parallel { PutRegion(n.states, v.fields, key, ReplaceAtLca(m, Get(v.fields, key).value, t[..c], d + 1, BuiltBranch(m, cur, t, c))); }
    } else {
      if n.kind == Parallel { RegionOf(n.states, v.fields, key); }
      assert n.kind == Compound;
      assert v.Obj? ==> v.fields.key != key && !Has(v.fields.rest, key) && !Has(v.fields, key);
      FreshWf(m, cur, t, c, d);
      LeftAtLeaf(m, n, v, t[..c], d, BuiltBranch(m, cur, t, c));
    }
  }

  lemma {:induction false} ValueStep(v: StateValue, p: Path, key: string)
    requires ValueAt(v, p).Some?
    ensures var w := ValueAt(v, p).value;
      ValueAt(v, p + [key]) == if w.Obj? && Has(w.fields, key) then Get(w.fields, key) else None
    decreases |p|
  {
    assert [key][1..] == [];
    if p == [] {
      assert p + [key] == [key];
    } else {
      assert (p + [key])[1..] == p[1..] + [key];
      ValueStep(Get(v.fields, p[0]).value, p[1..], key);
    }
  }

  /** At a compound node whose active child is another one: if that is a leaf its key is dropped;
      otherwise a second key is added, which no well-formed value has. */
  lemma LeftAtLeaf(m: Machine, n: Node, v: StateValue, lca: Path, d: nat, b: StateValue)
    requires d < |lca| && n.kind == Compound && Wf(n, v)
    requires Has(n.states, lca[d]) && !IsLeaf(Get(n.states, lca[d]).value)
    requires v.Obj? ==> v.fields.key != lca[d]
    ensures Wf(n, ReplaceAtLca(m, v, lca, d, b))
      <==> v.Leaf? && Wf(Get(n.states, lca[d]).value, Fresh(m, lca, d, b))
  {
    var r := ReplaceAtLca(m, v, lca, d, b);
    if v.Obj? {
      assert v.fields.rest == Empty;
      assert forall x: StateValue :: Put(v.fields, lca[d], x) == Field(v.fields.key, v.fields.val, Put(Empty, lca[d], x));
      assert r.Obj? && r.fields.Field? && r.fields.rest.Field?;
    } else {
      assert r == Obj(Field(lca[d], Fresh(m, lca, d, b), Empty));
    }
  }

  /** Main result: the next configuration is well formed exactly when the target is safe, for every
      source, active or not, and every target. */
  lemma NextIsWellFormedIff(m: Machine, cur: StateValue, s: Path, t: Path)
    requires ValidTree(m) && Wf(LiveRoot(m), cur)
    requires s != [] && NodeAt(LiveRoot(m), s).Some? && GetNodeByPath(m, t).Some?
    ensures Wf(LiveRoot(m), NextValue(m, cur, s, t)) <==> SafeTarget(m, cur, s, t)
  {
    var root := LiveRoot(m);
    var c := LcaLen(s, t);
    LiveRootShape(m);
    LiveLookup(m, t);
    if NodeAt(root, t).None? {
      ErrorIsNoRegion(m, cur, s, t);
    } else if IsActive(root, cur, t[..c]) {
      NextWfWhenActive(m, cur, s, t);
      RebuildableAbove(root, cur, t, 0, c);
    } else {
      assert t[..0] == [] && t[0..c] == t[..c];
      NextWfWhenLeft(m, cur, root, cur, t, c, 0);
    }
  }

  /** The injected `error` of a parallel root is no region of it. */
  lemma ErrorIsNoRegion(m: Machine, cur: StateValue, s: Path, t: Path)
    requires ValidTree(m) && Wf(LiveRoot(m), cur)
    requires s != [] && NodeAt(LiveRoot(m), s).Some? && GetNodeByPath(m, t).Some? && NodeAt(LiveRoot(m), t).None?
    ensures !Wf(LiveRoot(m), NextValue(m, cur, s, t))
  {
    var root := LiveRoot(m);
    var b := BuiltBranch(m, cur, t, LcaLen(s, t));
    LiveRootShape(m);
    LiveLookup(m, s);
    LiveLookup(m, t);
    SkipKeeps(m.states, t[0]);
    SkipKeeps(m.states, s[0]);
    assert s[0] != t[0];
    if Wf(root, NextValue(m, cur, s, t)) {
      RegionOf(root.states, NextValue(m, cur, s, t).fields, t[0]);
      GetPut(cur.fields, t[0], RegionValue(b, t[0]), t[0]);
    }
  }

  // ---- Which nodes are active afterwards ----

  /** Every parallel proper ancestor of the target is one of the source, through the same region. */
  ghost predicate RegionLocal(n: Node, s: Path, t: Path) {
    forall i :: 0 <= i < |t| && NodeAt(n, t[..i]).Some? && NodeAt(n, t[..i]).value.kind == Parallel
      ==> i < |s| && s[..i + 1] == t[..i + 1]
  }

  /** The nodes entered by a transition to `t` below a common ancestor of length `c`, in order:
      from below the ancestor down to the target, then the target's initial descendants. */
  function TargetPaths(n: Node, t: Path, c: nat): seq<Path>
    requires c < |t| && NodeAt(n, t).Some?
  {
    seq(|t| - 1 - c, i requires 0 <= i < |t| - 1 - c => t[..c + 1 + i]) + Below(t, EnteredPaths(NodeAt(n, t).value))
  }

  predicate Entering(n: Node, t: Path, c: nat, q: Path)
    requires c < |t| && NodeAt(n, t).Some?
  {
    c < |q| && if |q| < |t| then q <= t else t <= q && q[|t|..] in EnteredPaths(NodeAt(n, t).value)
  }

  lemma TargetPathsAre(n: Node, t: Path, c: nat, q: Path)
    requires c < |t| && NodeAt(n, t).Some? && WellShaped(n)
    ensures q in TargetPaths(n, t, c) <==> Entering(n, t, c, q)
  {
    var above := seq(|t| - 1 - c, i requires 0 <= i < |t| - 1 - c => t[..c + 1 + i]);
    BelowMember(t, EnteredPaths(NodeAt(n, t).value), q);
    assert q in TargetPaths(n, t, c) <==> q in above || q in Below(t, EnteredPaths(NodeAt(n, t).value));
    if c < |q| < |t| && q <= t {
      assert above[|q| - c - 1] == q;
    }
  }

  /** The ancestors of the target below position `i` are compound. */
  ghost predicate CompoundBelow(n: Node, t: Path, i: nat) {
    forall j :: i < j < |t| && NodeAt(n, t[..j]).Some? ==> NodeAt(n, t[..j]).value.kind != Parallel
  }

  /** With compound ancestors only, the rebuilt part holds exactly the entered nodes. */
  lemma {:induction false} BranchActive(m: Machine, cur: StateValue, t: Path, i: nat, q: Path)
    requires ValidTree(m) && Wf(LiveRoot(m), cur) && i < |t|
    requires NodeAt(LiveRoot(m), t).Some? && GetNodeByPath(m, t) == NodeAt(LiveRoot(m), t)
    requires CompoundBelow(LiveRoot(m), t, i)
    requires BuiltBranch(m, cur, t, i).Obj? && BuiltBranch(m, cur, t, i).fields.Field?
    ensures NodeAt(LiveRoot(m), t[..i + 1]).Some? && !IsLeaf(NodeAt(LiveRoot(m), t[..i + 1]).value)
    ensures IsActive(NodeAt(LiveRoot(m), t[..i + 1]).value, BuiltBranch(m, cur, t, i).fields.val, q)
       <==> Entering(LiveRoot(m), t, i, t[..i + 1] + q)
    decreases |t| - i
  {
    var root := LiveRoot(m);
    LiveRootShape(m);
    BranchWf(m, cur, t, i);
    AncestorShape(root, t, i + 1);
    var a := NodeAt(root, t[..i + 1]).value;
    var full := t[..i + 1] + q;
    if i == |t| - 1 {
      assert t[..i + 1] == t && full[|t|..] == q;
      EnteredAreActive(a, q);
    } else {
      LiveLookup(m, t[..i + 1]);
      assert a.kind == Compound;
      if q == [] {
        assert full == t[..i + 1];
      } else {
        BranchActiveStep(m, cur, t, i, q);
      }
    }
  }

  lemma {:induction false} BranchActiveStep(m: Machine, cur: StateValue, t: Path, i: nat, q: Path)
    requires ValidTree(m) && Wf(LiveRoot(m), cur) && i + 1 < |t| && q != []
    requires NodeAt(LiveRoot(m), t).Some? && GetNodeByPath(m, t) == NodeAt(LiveRoot(m), t)
    requires CompoundBelow(LiveRoot(m), t, i)
    requires NodeAt(LiveRoot(m), t[..i + 1]).Some? && NodeAt(LiveRoot(m), t[..i + 1]).value.kind == Compound
    ensures IsActive(NodeAt(LiveRoot(m), t[..i + 1]).value, BuiltBranch(m, cur, t, i + 1), q)
       <==> Entering(LiveRoot(m), t, i, t[..i + 1] + q)
    decreases |t| - i, 0
  {
    var root := LiveRoot(m);
    LiveRootShape(m);
    BranchWf(m, cur, t, i + 1);
    AncestorShape(root, t, i + 1);
    var b := BuiltBranch(m, cur, t, i + 1);
    var full := t[..i + 1] + q;
    if b.Leaf? {
      assert t[..i + 2] == t;
      LeafEntering(root, t, i + 1, i, q);
    } else {
      BranchActive(m, cur, t, i + 1, q[1..]);
      if q[0] == t[i + 1] {
        assert full == t[..i + 2] + q[1..];
      } else {
        assert full[i + 1] != t[i + 1];
      }
    }
  }

  /** Below the parent of a leaf target, exactly the target is entered. */
  lemma LeafEntering(n: Node, t: Path, i: nat, c: nat, r: Path)
    requires |t| == i + 1 && c <= i && NodeAt(n, t).Some? && IsLeaf(NodeAt(n, t).value) && r != []
    ensures Entering(n, t, c, t[..i] + r) <==> |r| == 1 && r[0] == t[i]
  {
    var full := t[..i] + r;
    assert EnteredPaths(NodeAt(n, t).value) == [[]];
    assert full[|t|..] == r[1..] && full[i] == r[0];
    if |r| == 1 && r[0] == t[i] {
      assert full == t;
      assert [[]][0] == full[|t|..];
    }
    if t <= full { assert t[i] == full[i]; }
  }

  /** Activity below a compound common ancestor. */
  lemma PlacedActiveCompound(m: Machine, cur: StateValue, t: Path, c: nat, r: Path)
    requires ValidTree(m) && Wf(LiveRoot(m), cur) && c < |t|
    requires NodeAt(LiveRoot(m), t).Some? && GetNodeByPath(m, t) == NodeAt(LiveRoot(m), t)
    requires NodeAt(LiveRoot(m), t[..c]).Some? && NodeAt(LiveRoot(m), t[..c]).value.kind == Compound
    requires CompoundBelow(LiveRoot(m), t, c)
    ensures IsActive(NodeAt(LiveRoot(m), t[..c]).value, BuiltBranch(m, cur, t, c), r)
       <==> r == [] || Entering(LiveRoot(m), t, c, t[..c] + r)
  {
    var root := LiveRoot(m);
    LiveRootShape(m);
    BranchWf(m, cur, t, c);
    AncestorShape(root, t, c);
    if r != [] {
      var full := t[..c] + r;
      if BuiltBranch(m, cur, t, c).Leaf? {
        assert t[..c + 1] == t;
        LeafEntering(root, t, c, c, r);
      } else {
        BranchActive(m, cur, t, c, r[1..]);
        if r[0] == t[c] {
          assert full == t[..c + 1] + r[1..];
        } else {
          assert full[c] != t[c];
        }
      }
    }
  }

  /** Activity below a parallel common ancestor: one region is replaced. */
  lemma PlacedActiveParallel(m: Machine, cur: StateValue, t: Path, c: nat, v: StateValue, r: Path)
    requires ValidTree(m) && Wf(LiveRoot(m), cur) && c < |t|
    requires NodeAt(LiveRoot(m), t).Some? && GetNodeByPath(m, t) == NodeAt(LiveRoot(m), t)
    requires NodeAt(LiveRoot(m), t[..c]).Some? && NodeAt(LiveRoot(m), t[..c]).value.kind == Parallel
    requires Wf(NodeAt(LiveRoot(m), t[..c]).value, v)
    requires CompoundBelow(LiveRoot(m), t, c)
    ensures IsActive(NodeAt(LiveRoot(m), t[..c]).value, Obj(Put(v.fields, t[c], RegionValue(BuiltBranch(m, cur, t, c), t[c]))), r)
       <==> if r == [] || r[0] != t[c] then IsActive(NodeAt(LiveRoot(m), t[..c]).value, v, r)
            else Entering(LiveRoot(m), t, c, t[..c] + r)
  {
    var l := NodeAt(LiveRoot(m), t[..c]).value;
    var w := RegionValue(BuiltBranch(m, cur, t, c), t[c]);
    if r != [] {
      GetPut(v.fields, t[c], w, r[0]);
      if r[0] == t[c] {
        RegionEntered(m, cur, t, c, r);
        assert IsActive(l, Obj(Put(v.fields, t[c], w)), r) <==>
          if IsLeaf(Get(l.states, t[c]).value) then |r| == 1 else IsActive(Get(l.states, t[c]).value, w, r[1..]);
      }
    }
  }

  lemma RegionEntered(m: Machine, cur: StateValue, t: Path, c: nat, r: Path)
    requires ValidTree(m) && Wf(LiveRoot(m), cur) && c < |t|
    requires NodeAt(LiveRoot(m), t).Some? && GetNodeByPath(m, t) == NodeAt(LiveRoot(m), t)
    requires CompoundBelow(LiveRoot(m), t, c) && r != [] && r[0] == t[c]
    ensures NodeAt(LiveRoot(m), t[..c]).Some? && Has(NodeAt(LiveRoot(m), t[..c]).value.states, t[c])
    ensures var region := Get(NodeAt(LiveRoot(m), t[..c]).value.states, t[c]).value;
      (if IsLeaf(region) then |r| == 1 else IsActive(region, RegionValue(BuiltBranch(m, cur, t, c), t[c]), r[1..]))
      <==> Entering(LiveRoot(m), t, c, t[..c] + r)
  {
    var root := LiveRoot(m);
    LiveRootShape(m);
    BranchWf(m, cur, t, c);
    AncestorShape(root, t, c);
    if BuiltBranch(m, cur, t, c).Leaf? {
      assert t[..c + 1] == t;
      LeafEntering(root, t, c, c, r);
    } else {
      BranchActive(m, cur, t, c, r[1..]);
      assert t[..c] + r == t[..c + 1] + r[1..];
    }
  }

  lemma PathSplit(s: Path, c: nat, q: Path)
    requires c < |s|
    ensures s[..c + 1] <= q <==> s[..c] <= q && |q| > c && q[c] == s[c]
    ensures s[..c] <= q ==> q == s[..c] + q[c..]
  {
    if s[..c] <= q && |q| > c && q[c] == s[c] {
      assert s[..c + 1] == s[..c] + [s[c]];
      assert q[..c + 1] == q[..c] + [q[c]];
    }
    if s[..c + 1] <= q {
      assert q[..c + 1] == s[..c + 1];
      assert s[..c] == s[..c + 1][..c];
      assert q[c] == s[..c + 1][c];
    }
  }

  lemma LocalMeansCompoundBelow(n: Node, s: Path, t: Path)
    requires s != [] && t != [] && RegionLocal(n, s, t)
    ensures CompoundBelow(n, t, LcaLen(s, t))
    ensures NodeAt(n, t[..LcaLen(s, t)]).Some? && NodeAt(n, t[..LcaLen(s, t)]).value.kind == Parallel
      ==> s[LcaLen(s, t)] == t[LcaLen(s, t)]
  {
    var c := LcaLen(s, t);
    forall j | c < j < |t| && NodeAt(n, t[..j]).Some? ensures NodeAt(n, t[..j]).value.kind != Parallel {
      if NodeAt(n, t[..j]).value.kind == Parallel { SamePrefix(s, t, j + 1, c); }
    }
    if NodeAt(n, t[..c]).Some? && NodeAt(n, t[..c]).value.kind == Parallel {
      SamePrefix(s, t, c + 1, c);
    }
  }

  lemma SamePrefix(s: Path, t: Path, k: nat, i: nat)
    requires k <= |s| && k <= |t| && s[..k] == t[..k] && i < k
    ensures s[i] == t[i]
  {
    assert s[i] == s[..k][i] == t[..k][i];
  }

  /** Main result: the active nodes afterwards are the old ones that were not exited and the
      entered ones. In particular nothing outside the common ancestor changes. */
  lemma NextActive(m: Machine, cur: StateValue, s: Path, t: Path, q: Path)
    requires ValidTree(m) && Wf(LiveRoot(m), cur)
    requires s != [] && IsActive(LiveRoot(m), cur, s)
    requires GetNodeByPath(m, t).Some? && SafeTarget(m, cur, s, t) && RegionLocal(LiveRoot(m), s, t)
    ensures IsActive(LiveRoot(m), NextValue(m, cur, s, t), q) <==>
      (IsActive(LiveRoot(m), cur, q) && !(s[..LcaLen(s, t) + 1] <= q))
      || Entering(LiveRoot(m), t, LcaLen(s, t), q)
  {
    var c := LcaLen(s, t);
    LiveRootShape(m);
    PathSplit(s, c, q);
    NextBelow(m, cur, s, t, q);
    if t[..c] <= q {
      NextInside(m, cur, s, t, q[c..]);
    }
  }

  /** The next value, split at the common ancestor. */
  lemma NextBelow(m: Machine, cur: StateValue, s: Path, t: Path, q: Path)
    requires ValidTree(m) && Wf(LiveRoot(m), cur)
    requires s != [] && IsActive(LiveRoot(m), cur, s)
    requires GetNodeByPath(m, t).Some? && SafeTarget(m, cur, s, t)
    ensures var root := LiveRoot(m); var c := LcaLen(s, t);
      && NodeAt(root, t[..c]).Some? && !IsLeaf(NodeAt(root, t[..c]).value)
      && ValueAt(cur, t[..c]).Some? && Wf(NodeAt(root, t[..c]).value, ValueAt(cur, t[..c]).value)
      && (IsActive(root, NextValue(m, cur, s, t), q) <==>
            if t[..c] <= q then IsActive(NodeAt(root, t[..c]).value, PlacedValue(m, cur, t, c), q[c..])
            else IsActive(root, cur, q))
  {
    var root := LiveRoot(m);
    var c := LcaLen(s, t);
    var b := BuiltBranch(m, cur, t, c);
    LiveRootShape(m);
    LiveLookup(m, t);
    ActivePrefix(root, cur, s, c);
    ActiveNode(root, cur, s[..c]);
    assert t[..c] == s[..c];
    PlacedWf(m, cur, t, c, ValueAt(cur, t[..c]).value);
    BranchWf(m, cur, t, c);
    if c > 0 {
      assert t[..c][..0] == [];
      assert t[..c][0..] == t[..c];
      ReplaceIsSplice(m, root, cur, t[..c], 0, b);
      SpliceActive(root, cur, t[..c], b, q);
    } else {
      assert t[..c] == [] && q[0..] == q;
    }
  }

  /** What the common ancestor of length `c` holds afterwards. */
  function PlacedValue(m: Machine, cur: StateValue, t: Path, c: nat): StateValue
    requires c < |t| && GetNodeByPath(m, t).Some?
  {
    var l := NodeAt(LiveRoot(m), t[..c]);
    var b := BuiltBranch(m, cur, t, c);
    if l.Some? && l.value.kind == Parallel && ValueAt(cur, t[..c]).Some? && ValueAt(cur, t[..c]).value.Obj?
    then Obj(Put(ValueAt(cur, t[..c]).value.fields, t[c], RegionValue(b, t[c])))
    else b
  }

  lemma NextInside(m: Machine, cur: StateValue, s: Path, t: Path, r: Path)
    requires ValidTree(m) && Wf(LiveRoot(m), cur)
    requires s != [] && IsActive(LiveRoot(m), cur, s)
    requires GetNodeByPath(m, t).Some? && SafeTarget(m, cur, s, t) && RegionLocal(LiveRoot(m), s, t)
    requires NodeAt(LiveRoot(m), t[..LcaLen(s, t)]).Some?
    ensures var root := LiveRoot(m); var c := LcaLen(s, t);
      IsActive(NodeAt(root, t[..c]).value, PlacedValue(m, cur, t, c), r) <==>
        (IsActive(root, cur, t[..c] + r) && (r == [] || r[0] != s[c])) || Entering(root, t, c, t[..c] + r)
  {
    var root := LiveRoot(m);
    var c := LcaLen(s, t);
    LiveRootShape(m);
    LiveLookup(m, t);
    LocalMeansCompoundBelow(root, s, t);
    NextBelow(m, cur, s, t, []);
    ActivePrefix(root, cur, s, c);
    assert s[..c] == t[..c];
    ActiveConcat(root, cur, t[..c], r);
    if NodeAt(root, t[..c]).value.kind == Compound {
      NextInsideCompound(m, cur, s, t, r);
    } else {
      PlacedActiveParallel(m, cur, t, c, ValueAt(cur, t[..c]).value, r);
      if r != [] && Entering(root, t, c, t[..c] + r) { EnteringKey(root, t, c, t[..c] + r); }
    }
  }

  lemma NextInsideCompound(m: Machine, cur: StateValue, s: Path, t: Path, r: Path)
    requires ValidTree(m) && Wf(LiveRoot(m), cur)
    requires s != [] && IsActive(LiveRoot(m), cur, s) && t != [] && s[..LcaLen(s, t)] == t[..LcaLen(s, t)]
    requires NodeAt(LiveRoot(m), t).Some? && GetNodeByPath(m, t) == NodeAt(LiveRoot(m), t)
    requires CompoundBelow(LiveRoot(m), t, LcaLen(s, t))
    requires NodeAt(LiveRoot(m), t[..LcaLen(s, t)]).Some?
    requires NodeAt(LiveRoot(m), t[..LcaLen(s, t)]).value.kind == Compound
    ensures var root := LiveRoot(m); var c := LcaLen(s, t);
      IsActive(NodeAt(root, t[..c]).value, BuiltBranch(m, cur, t, c), r) <==>
        (IsActive(root, cur, t[..c] + r) && (r == [] || r[0] != s[c])) || Entering(root, t, c, t[..c] + r)
  {
    var root := LiveRoot(m);
    var c := LcaLen(s, t);
    LiveRootShape(m);
    PlacedActiveCompound(m, cur, t, c, r);
    if r == [] {
      assert t[..c] + r == s[..c];
      ActivePrefix(root, cur, s, c);
    } else if IsActive(root, cur, t[..c] + r) {
      OneChild(root, cur, t[..c], s, t[..c] + r);
    }
  }

  lemma EnteringKey(n: Node, t: Path, c: nat, q: Path)
    requires c < |t| && NodeAt(n, t).Some? && Entering(n, t, c, q)
    ensures q[c] == t[c]
  {}

  /** A compound node has a single active child. */
  lemma OneChild(n: Node, v: StateValue, p: Path, s: Path, q: Path)
    requires WellShaped(n) && Wf(n, v) && IsActive(n, v, s) && IsActive(n, v, q)
    requires p < s && p < q && NodeAt(n, p).Some? && NodeAt(n, p).value.kind == Compound
    ensures s[|p|] == q[|p|]
  {
    ActivePrefix(n, v, s, |p|);
    assert s[..|p|] == p;
    ActiveNode(n, v, p);
    ActiveBelow(n, v, p, s);
    ActiveBelow(n, v, p, q);
  }

  lemma ActiveBelow(n: Node, v: StateValue, p: Path, q: Path)
    requires WellShaped(n) && Wf(n, v) && IsActive(n, v, p) && p < q
    requires NodeAt(n, p).Some? && !IsLeaf(NodeAt(n, p).value) && ValueAt(v, p).Some?
    ensures IsActive(n, v, q) <==> IsActive(NodeAt(n, p).value, ValueAt(v, p).value, q[|p|..])
    ensures q[|p|..] != [] && q[|p|..][0] == q[|p|]
  {
    assert q == p + q[|p|..];
    ActiveConcat(n, v, p, q[|p|..]);
  }
}
