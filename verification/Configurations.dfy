/** Configurations of a machine as trees: which values are well formed, which paths they make
    active, and their leaves. */
module Configurations {
  import opened Records
  import opened Machines

  /** A container's value: a compound node has exactly one active child, written as its key when
      the child is a leaf; a parallel node has all its regions, in declaration order. */
  ghost predicate Wf(n: Node, v: StateValue)
    decreases v, 0
  {
    match n.kind
    case Compound => (
      match v
      case Leaf(k) => Has(n.states, k) && IsLeaf(Get(n.states, k).value)
      case Obj(f) =>
        && f.Field? && f.rest.Empty?
        && Has(n.states, f.key) && !IsLeaf(Get(n.states, f.key).value)
        && Wf(Get(n.states, f.key).value, f.val))
    case Parallel => v.Obj? && WfRegions(n.states, v.fields)
    case _ => false
  }

  ghost predicate WfRegions(regions: Record<Node>, fields: Record<StateValue>)
    decreases fields
  {
    match fields
    case Empty => regions.Empty?
    case Field(k, w, rest) =>
      && regions.Field? && regions.key == k
      && WfRegion(k, regions.val, w)
      && WfRegions(regions.rest, rest)
  }

  ghost predicate WfRegion(key: string, region: Node, w: StateValue)
    decreases w, 1
  {
    if IsLeaf(region) then w == Leaf(key) else Wf(region, w)
  }

  /** The path `p` below `n` is active under the value `v` of `n`; the node itself always is. */
  predicate IsActive(n: Node, v: StateValue, p: Path)
    decreases |p|
  {
    p == [] ||
    (var c := Get(n.states, p[0]);
     && c.Some?
     && match n.kind
        case Compound =>
          if IsLeaf(c.value) then v == Leaf(p[0]) && |p| == 1
          else v.Obj? && v.fields.Field? && v.fields.key == p[0] && IsActive(c.value, v.fields.val, p[1..])
        case Parallel =>
          && v.Obj? && Has(v.fields, p[0])
          && if IsLeaf(c.value) then |p| == 1 else IsActive(c.value, Get(v.fields, p[0]).value, p[1..])
        case _ => false)
  }

  /** The value stored for the container at `p`, if the keys of `p` are nested in `v`. */
  function ValueAt(v: StateValue, p: Path): Option<StateValue>
    decreases |p|
  {
    if p == [] then Some(v)
    else if v.Obj? && Has(v.fields, p[0]) then ValueAt(Get(v.fields, p[0]).value, p[1..])
    else None
  }

  lemma {:induction false} RegionOf(regions: Record<Node>, fields: Record<StateValue>, key: string)
    requires WfRegions(regions, fields)
    ensures Has(regions, key) <==> Has(fields, key)
    ensures Has(regions, key) ==> WfRegion(key, Get(regions, key).value, Get(fields, key).value)
  {
    match fields
    case Empty =>
    case Field(k, _, rest) => RegionOf(regions.rest, rest, key);
  }

  /** An active path names a node; an active container has a well-formed value, stored under its
      path. */
  lemma {:induction false} ActiveNode(n: Node, v: StateValue, p: Path)
    requires Wf(n, v) && WellShaped(n) && IsActive(n, v, p)
    ensures NodeAt(n, p).Some?
    ensures !IsLeaf(NodeAt(n, p).value) ==> ValueAt(v, p).Some? && Wf(NodeAt(n, p).value, ValueAt(v, p).value)
    decreases |p|
  {
    if p != [] {
      var c := Get(n.states, p[0]).value;
      WellShapedChild(n.states, p[0]);
      if n.kind == Parallel { RegionOf(n.states, v.fields, p[0]); }
      if IsLeaf(c) {
        assert p[1..] == [];
      } else {
        assert Has(v.fields, p[0]);
        ActiveNode(c, Get(v.fields, p[0]).value, p[1..]);
      }
    }
  }

  /** The keys of an inactive container are not nested in the value. */
  lemma {:induction false} InactiveContainer(n: Node, v: StateValue, p: Path)
    requires Wf(n, v) && WellShaped(n) && !IsActive(n, v, p)
    requires NodeAt(n, p).Some? && !IsLeaf(NodeAt(n, p).value)
    ensures ValueAt(v, p).None?
    decreases |p|
  {
    var c := Get(n.states, p[0]).value;
    WellShapedChild(n.states, p[0]);
    if IsLeaf(c) {
      assert false;
    } else if v.Obj? && Has(v.fields, p[0]) {
      if n.kind == Parallel {
        RegionOf(n.states, v.fields, p[0]);
      } else {
        assert Get(v.fields.rest, p[0]) == None;
      }
      InactiveContainer(c, Get(v.fields, p[0]).value, p[1..]);
    }
  }

  /** Ancestors of active paths are active, and proper ancestors are containers. */
  lemma {:induction false} ActivePrefix(n: Node, v: StateValue, p: Path, i: nat)
    requires Wf(n, v) && WellShaped(n) && IsActive(n, v, p) && i <= |p|
    ensures IsActive(n, v, p[..i])
    ensures i < |p| ==> NodeAt(n, p[..i]).Some? && !IsLeaf(NodeAt(n, p[..i]).value)
    decreases |p|
  {
    if i > 0 {
      var c := Get(n.states, p[0]).value;
      WellShapedChild(n.states, p[0]);
      assert p[..i][1..] == p[1..][..i - 1];
      if n.kind == Parallel { RegionOf(n.states, v.fields, p[0]); }
      if !IsLeaf(c) {
        ActivePrefix(c, Get(v.fields, p[0]).value, p[1..], i - 1);
      }
    }
  }

  /** A well-formed value is determined by its active paths. */
  lemma {:induction false} ActiveDetermines(n: Node, v: StateValue, w: StateValue)
    requires WellShaped(n) && Wf(n, v) && Wf(n, w)
    requires forall p: Path :: IsActive(n, v, p) <==> IsActive(n, w, p)
    ensures v == w
    decreases v, 1
  {
    if n.kind == Compound {
      var k := if v.Leaf? then v.name else v.fields.key;
      var c := Get(n.states, k).value;
      assert IsActive(n, v, [k]);
      assert IsActive(n, w, [k]);
      if v.Obj? {
        WellShapedChild(n.states, k);
        forall p: Path ensures IsActive(c, v.fields.val, p) <==> IsActive(c, w.fields.val, p) {
          assert ([k] + p)[1..] == p;
          assert IsActive(n, v, [k] + p) <==> IsActive(n, w, [k] + p);
        }
        ActiveDetermines(c, v.fields.val, w.fields.val);
      }
    } else {
      forall k: string, p: Path
        | Has(n.states, k) && !IsLeaf(Get(n.states, k).value) && Has(v.fields, k) && Has(w.fields, k)
        ensures IsActive(Get(n.states, k).value, Get(v.fields, k).value, p)
           <==> IsActive(Get(n.states, k).value, Get(w.fields, k).value, p)
      {
        assert ([k] + p)[1..] == p;
        assert IsActive(n, v, [k] + p) <==> IsActive(n, w, [k] + p);
      }
      RegionsDetermine(n.states, v.fields, w.fields);
    }
  }

  lemma {:induction false} RegionsDetermine(rs: Record<Node>, f: Record<StateValue>, g: Record<StateValue>)
    requires AllWellShaped(rs) && DistinctKeys(rs) && WfRegions(rs, f) && WfRegions(rs, g)
    requires forall k: string, p: Path :: Has(rs, k) && !IsLeaf(Get(rs, k).value) && Has(f, k) && Has(g, k) ==>
      (IsActive(Get(rs, k).value, Get(f, k).value, p) <==> IsActive(Get(rs, k).value, Get(g, k).value, p))
    ensures f == g
    decreases f, 0
  {
    if rs.Field? {
      if !IsLeaf(rs.val) {
        forall p: Path ensures IsActive(rs.val, f.val, p) <==> IsActive(rs.val, g.val, p) {
          assert Has(rs, rs.key) && Has(f, rs.key) && Has(g, rs.key);
        }
        ActiveDetermines(rs.val, f.val, g.val);
      }
      forall k: string, p: Path | Has(rs.rest, k) && !IsLeaf(Get(rs.rest, k).value) && Has(f.rest, k) && Has(g.rest, k)
        ensures IsActive(Get(rs.rest, k).value, Get(f.rest, k).value, p)
           <==> IsActive(Get(rs.rest, k).value, Get(g.rest, k).value, p)
      {
        assert k != rs.key;
        assert Get(rs, k) == Get(rs.rest, k) && Get(f, k) == Get(f.rest, k) && Get(g, k) == Get(g.rest, k);
      }
      RegionsDetermine(rs.rest, f.rest, g.rest);
    }
  }

  /** Activity below an active container is activity in its own value. */
  lemma {:induction false} ActiveConcat(n: Node, v: StateValue, p: Path, r: Path)
    requires WellShaped(n) && Wf(n, v) && IsActive(n, v, p)
    requires NodeAt(n, p).Some? && !IsLeaf(NodeAt(n, p).value) && ValueAt(v, p).Some?
    ensures IsActive(n, v, p + r) <==> IsActive(NodeAt(n, p).value, ValueAt(v, p).value, r)
    decreases |p|
  {
    if p == [] {
      assert p + r == r;
    } else {
      assert (p + r)[0] == p[0] && (p + r)[1..] == p[1..] + r;
      var c := Get(n.states, p[0]).value;
      WellShapedChild(n.states, p[0]);
      if IsLeaf(c) {
        assert false;
      } else {
        if n.kind == Parallel { RegionOf(n.states, v.fields, p[0]); }
        ActiveConcat(c, Get(v.fields, p[0]).value, p[1..], r);
      }
    }
  }
}
