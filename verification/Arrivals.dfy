/** Where a transition leads, for every target that is safe and every source, active or not: which
    states are active afterwards (engine/statechart.ts, applyTargetTransition). */
module Arrivals {
  import opened Records
  import opened Machines
  import opened Configurations
  import opened Entry
  import opened Transitions

  /** What is stored for the child under `key`. */
  function Stored(v: Option<StateValue>, key: string): Option<StateValue> {
    if v.Some? && v.value.Obj? then Get(v.value.fields, key) else None
  }

  /** From the value `was` of `n`, if it has one, `now` leads to `t`: a parallel node keeps what it stored
      for its other regions, and the target is entered. */
  ghost predicate LeadsTo(n: Node, was: Option<StateValue>, now: StateValue, t: Path)
    requires t != []
    decreases |t|, 0
  {
    var c := Get(n.states, t[0]);
    && c.Some?
    && (n.kind == Parallel ==> now.Obj? && Has(now.fields, t[0]) && forall k :: k != t[0] ==> Get(now.fields, k) == Stored(was, k))
    && (if IsLeaf(c.value) then n.kind == Compound ==> now == Leaf(t[0])
        else now.Obj? && Has(now.fields, t[0]) && Reaches(c.value, Stored(was, t[0]), Get(now.fields, t[0]).value, t[1..]))
  }

  /** The same for a container whose value is `now`, when the rest of the path may be empty. */
  ghost predicate Reaches(c: Node, was: Option<StateValue>, now: StateValue, t: Path)
    decreases |t|, 1
  {
    if t == [] then EnterSubtree(c).sub == Some(now) else LeadsTo(c, was, now, t)
  }

  // ---- The value that is built ----

  lemma {:induction false} SubObjectIs(v: StateValue, p: Path)
    ensures SubObject(v, p) == if ValueAt(v, p).Some? && ValueAt(v, p).value.Obj? then ValueAt(v, p).value.fields else Empty
    decreases |p|
  {
    if p != [] && v.Obj? && Has(v.fields, p[0]) { SubObjectIs(Get(v.fields, p[0]).value, p[1..]); }
  }

  /** The branch at position `i`: what it stores for `t[i]`. */
  ghost predicate BranchReaches(m: Machine, cur: StateValue, t: Path, i: nat, b: StateValue)
    requires i < |t|
  {
    var c := NodeAt(LiveRoot(m), t[..i + 1]);
    && c.Some?
    && if IsLeaf(c.value) then b == Leaf(t[i])
       else b.Obj? && b.fields.Field? && b.fields.key == t[i] && b.fields.rest.Empty?
            && Reaches(c.value, ValueAt(cur, t[..i + 1]), b.fields.val, t[i + 1..])
  }

  lemma {:induction false} BranchLeads(m: Machine, cur: StateValue, t: Path, i: nat)
    requires ValidTree(m) && i < |t|
    requires NodeAt(LiveRoot(m), t).Some? && GetNodeByPath(m, t) == NodeAt(LiveRoot(m), t)
    ensures BranchReaches(m, cur, t, i, BuiltBranch(m, cur, t, i))
    decreases |t| - i
  {
    var root := LiveRoot(m);
    LiveRootShape(m);
    AncestorShape(root, t, i + 1);
    if i == |t| - 1 {
      assert t[..i + 1] == t && t[i + 1..] == [];
      EnterIsWellFormed(NodeAt(root, t).value);
    } else {
      BranchLeads(m, cur, t, i + 1);
      BranchLeadsStep(m, cur, t, i);
    }
  }

  lemma BranchLeadsStep(m: Machine, cur: StateValue, t: Path, i: nat)
    requires ValidTree(m) && i + 1 < |t|
    requires NodeAt(LiveRoot(m), t).Some? && GetNodeByPath(m, t) == NodeAt(LiveRoot(m), t)
    requires BranchReaches(m, cur, t, i + 1, BuiltBranch(m, cur, t, i + 1))
    ensures BranchReaches(m, cur, t, i, BuiltBranch(m, cur, t, i))
  {
    var root := LiveRoot(m);
    var inner := BuiltBranch(m, cur, t, i + 1);
    var key := t[i + 1];
    LiveRootShape(m);
    AncestorShape(root, t, i + 1);
    LiveLookup(m, t[..i + 1]);
    LiveLookup(m, t);
    var a := NodeAt(root, t[..i + 1]).value;
    var was := ValueAt(cur, t[..i + 1]);
    assert t[..i + 2] == t[..i + 1] + [key] && t[i + 1..][0] == key && t[i + 1..][1..] == t[i + 2..];
    if was.Some? { ValueStep(cur, t[..i + 1], key); } else { NoValueBelow(cur, t[..i + 1], key); }
    SubObjectIs(cur, t[..i + 1]);
    if a.kind == Parallel {
      var had := SubObject(cur, t[..i + 1]);
      forall k ensures Get(Put(had, key, RegionValue(inner, key)), k) == if k == key then Some(RegionValue(inner, key)) else Get(had, k) {
        GetPut(had, key, RegionValue(inner, key), k);
      }
    }
  }

  lemma {:induction false} NoValueBelow(v: StateValue, p: Path, key: string)
    requires ValueAt(v, p).None?
    ensures ValueAt(v, p + [key]).None?
    decreases |p|
  {
    assert (p + [key])[0] == p[0] && (p + [key])[1..] == p[1..] + [key];
    if v.Obj? && Has(v.fields, p[0]) { NoValueBelow(Get(v.fields, p[0]).value, p[1..], key); }
  }

  // ---- The replacement along the common ancestor ----

  /** The value at `t[..d]`, or the placeholder that the source puts where nothing is stored. */
  ghost predicate HeldAt(cur: StateValue, t: Path, d: nat, v: StateValue)
    requires d <= |t|
  {
    match ValueAt(cur, t[..d]) case Some(w) => v == w case None => v == Leaf("")
  }

  lemma HeldBelow(cur: StateValue, t: Path, d: nat, v: StateValue)
    requires d < |t| && HeldAt(cur, t, d, v)
    ensures ValueAt(cur, t[..d + 1]) == Stored(ValueAt(cur, t[..d]), t[d])
    ensures ValueAt(cur, t[..d + 1]) == if v.Obj? then Get(v.fields, t[d]) else None
  {
    assert t[..d + 1] == t[..d] + [t[d]];
    if ValueAt(cur, t[..d]).Some? { ValueStep(cur, t[..d], t[d]); } else { NoValueBelow(cur, t[..d], t[d]); }
  }

  lemma SetFieldKeeps(v: StateValue, key: string, w: StateValue, k: string)
    ensures var r := SetField(v, key, w);
      r.Obj? && Get(r.fields, k) == if k == key then Some(w) else if v.Obj? then Get(v.fields, k) else None
  {
    if v.Obj? { GetPut(v.fields, key, w, k); }
  }

  /** Setting the value of a child that is a container. */
  lemma SetLeads(n: Node, was: Option<StateValue>, v: StateValue, w: StateValue, t: Path)
    requires t != [] && Has(n.states, t[0]) && !IsLeaf(Get(n.states, t[0]).value)
    requires forall k :: Stored(was, k) == if v.Obj? then Get(v.fields, k) else None
    requires Reaches(Get(n.states, t[0]).value, Stored(was, t[0]), w, t[1..])
    ensures LeadsTo(n, was, SetField(v, t[0], w), t)
  {
    forall k ensures Get(SetField(v, t[0], w).fields, k) == if k == t[0] then Some(w) else Stored(was, k) { SetFieldKeeps(v, t[0], w, k); }
  }

  lemma {:induction false} ReplaceLeads(m: Machine, cur: StateValue, t: Path, c: nat, d: nat, v: StateValue)
    requires ValidTree(m) && d < c < |t| && HeldAt(cur, t, d, v)
    requires NodeAt(LiveRoot(m), t).Some? && GetNodeByPath(m, t) == NodeAt(LiveRoot(m), t)
    requires !BareRegion(LiveRoot(m), t, c)
    ensures NodeAt(LiveRoot(m), t[..d]).Some?
    ensures LeadsTo(NodeAt(LiveRoot(m), t[..d]).value, ValueAt(cur, t[..d]), ReplaceAtLca(m, v, t[..c], d, BuiltBranch(m, cur, t, c)), t[d..])
    decreases c - d
  {
    var root := LiveRoot(m);
    LiveRootShape(m);
    AncestorShape(root, t, d);
    AncestorShape(root, t, d + 1);
    HeldBelow(cur, t, d, v);
    var key := t[d];
    var n := NodeAt(root, t[..d]).value;
    var was := ValueAt(cur, t[..d]);
    assert t[..c][d] == key && t[d..][0] == key && t[d..][1..] == t[d + 1..] && t[..c][..d + 1] == t[..d + 1];
    if d == c - 1 {
      LastLeads(m, cur, t, c, v);
    } else {
      var sub := if v.Obj? && Has(v.fields, key) then Get(v.fields, key).value else Leaf("");
      ReplaceLeads(m, cur, t, c, d + 1, sub);
      SetLeads(n, was, v, ReplaceAtLca(m, sub, t[..c], d + 1, BuiltBranch(m, cur, t, c)), t[d..]);
    }
  }

  /** The common ancestor itself. */
  lemma LastLeads(m: Machine, cur: StateValue, t: Path, c: nat, v: StateValue)
    requires ValidTree(m) && 0 < c < |t| && HeldAt(cur, t, c - 1, v)
    requires NodeAt(LiveRoot(m), t).Some? && GetNodeByPath(m, t) == NodeAt(LiveRoot(m), t)
    requires !BareRegion(LiveRoot(m), t, c)
    ensures NodeAt(LiveRoot(m), t[..c - 1]).Some?
    ensures LeadsTo(NodeAt(LiveRoot(m), t[..c - 1]).value, ValueAt(cur, t[..c - 1]),
                    ReplaceAtLca(m, v, t[..c], c - 1, BuiltBranch(m, cur, t, c)), t[c - 1..])
  {
    var root := LiveRoot(m);
    var b := BuiltBranch(m, cur, t, c);
    var key := t[c - 1];
    LiveRootShape(m);
    AncestorShape(root, t, c - 1);
    AncestorShape(root, t, c);
    AncestorShape(root, t, c + 1);
    LiveLookup(m, t[..c]);
    LiveLookup(m, t);
    HeldBelow(cur, t, c - 1, v);
    BranchLeads(m, cur, t, c);
    var a := NodeAt(root, t[..c]).value;
    var was := ValueAt(cur, t[..c - 1]);
    var prior := if v.Obj? then Get(v.fields, key) else None;
    assert t[..c][c - 1] == key && t[..c][..c] == t[..c];
    assert t[c - 1..][0] == key && t[c - 1..][1..] == t[c..] && t[c..][0] == t[c] && t[c..][1..] == t[c + 1..];
    assert t[..c + 1] == t[..c] + [t[c]];
    if prior.Some? { ValueStep(cur, t[..c], t[c]); } else { NoValueBelow(cur, t[..c], t[c]); }
    if |t| == c + 1 { assert t[..c + 1] == t; }
    var w := PlacedAtLca(a, prior, b);
    PlacedLeads(a, prior, b, t[c..]);
    SetLeads(NodeAt(root, t[..c - 1]).value, was, v, w, t[c - 1..]);
  }

  /** The value that the common ancestor gets. */
  function PlacedAtLca(a: Node, prior: Option<StateValue>, b: StateValue): StateValue {
    if a.kind == Parallel && b.Obj? && b.fields.Field? then
      Obj(Put(if prior.Some? && prior.value.Obj? then prior.value.fields else Empty, b.fields.key, b.fields.val))
    else b
  }

  lemma PlacedLeads(a: Node, prior: Option<StateValue>, b: StateValue, t: Path)
    requires t != [] && Has(a.states, t[0])
    requires a.kind == Parallel ==> !IsLeaf(Get(a.states, t[0]).value)
    requires if IsLeaf(Get(a.states, t[0]).value) then b == Leaf(t[0])
             else b.Obj? && b.fields.Field? && b.fields.key == t[0] && b.fields.rest.Empty?
                  && Reaches(Get(a.states, t[0]).value, Stored(prior, t[0]), b.fields.val, t[1..])
    ensures LeadsTo(a, prior, PlacedAtLca(a, prior, b), t)
  {
    if a.kind == Parallel {
      var had := if prior.Some? && prior.value.Obj? then prior.value.fields else Empty;
      forall k ensures Get(Put(had, t[0], b.fields.val), k) == if k == t[0] then Some(b.fields.val) else Stored(prior, k) {
        GetPut(had, t[0], b.fields.val, k);
      }
    }
  }

  /** Every target that exists in the live tree, and is no bare region, is reached. */
  lemma NextLeads(m: Machine, cur: StateValue, s: Path, t: Path)
    requires ValidTree(m) && Wf(LiveRoot(m), cur) && s != [] && GetNodeByPath(m, t).Some? && SafeTarget(m, cur, s, t)
    ensures LeadsTo(LiveRoot(m), Some(cur), NextValue(m, cur, s, t), t)
  {
    var root := LiveRoot(m);
    var c := LcaLen(s, t);
    LiveRootShape(m);
    LiveLookup(m, t);
    assert t[..0] == [] && t[0..] == t;
    if c > 0 {
      ReplaceLeads(m, cur, t, c, 0, cur);
    } else {
      var b := BuiltBranch(m, cur, t, 0);
      BranchLeads(m, cur, t, 0);
      AncestorShape(root, t, 0);
      HeldBelow(cur, t, 0, cur);
      if m.kind == Parallel {
        forall k ensures Get(Put(cur.fields, t[0], RegionValue(b, t[0])), k) == if k == t[0] then Some(RegionValue(b, t[0])) else Get(cur.fields, k) {
          GetPut(cur.fields, t[0], RegionValue(b, t[0]), k);
        }
      }
    }
  }

  // ---- Which states are active afterwards ----

  lemma LeafHasNoneBelow(n: Node, r: Path)
    requires WellShaped(n) && IsLeaf(n)
    ensures FollowsInitial(n, r) <==> r == []
  {}

  /** A container that is stored under a key has a well-formed value there. */
  lemma StoredIsWf(n: Node, v: StateValue, key: string)
    requires WellShaped(n) && Wf(n, v) && Has(n.states, key) && !IsLeaf(Get(n.states, key).value)
    ensures WellShaped(Get(n.states, key).value)
    ensures Stored(Some(v), key).Some? ==> Wf(Get(n.states, key).value, Stored(Some(v), key).value)
    ensures forall r :: IsActive(n, v, [key] + r) <==>
      Stored(Some(v), key).Some? && IsActive(Get(n.states, key).value, Stored(Some(v), key).value, r)
  {
    WellShapedChild(n.states, key);
    if n.kind == Parallel { RegionOf(n.states, v.fields, key); } else if v.Obj? { assert Get(v.fields.rest, key) == None; }
    forall r ensures IsActive(n, v, [key] + r) <==>
      Stored(Some(v), key).Some? && IsActive(Get(n.states, key).value, Stored(Some(v), key).value, r)
    {
      assert ([key] + r)[1..] == r;
    }
  }

  lemma {:induction false} LeadsActive(n: Node, was: Option<StateValue>, now: StateValue, t: Path, q: Path)
    requires WellShaped(n) && Wf(n, now) && t != [] && NodeAt(n, t).Some? && LeadsTo(n, was, now, t)
    ensures q <= t ==> IsActive(n, now, q)
    ensures t <= q ==> (IsActive(n, now, q) <==> FollowsInitial(NodeAt(n, t).value, q[|t|..]))
    decreases |t|
  {
    if q != [] && q[0] == t[0] {
      var c := Get(n.states, t[0]).value;
      WellShapedChild(n.states, t[0]);
      assert q == [q[0]] + q[1..] && t == [t[0]] + t[1..];
      assert (q <= t <==> q[1..] <= t[1..]) && (t <= q <==> t[1..] <= q[1..]);
      if IsLeaf(c) {
        assert t[1..] == [];
        LeafHasNoneBelow(c, q[1..]);
      } else {
        StoredIsWf(n, now, t[0]);
        var w := Get(now.fields, t[0]).value;
        if t[1..] == [] {
          EnteredAreActive(c, q[1..]);
          EnteredFollow(c, q[1..]);
        } else {
          LeadsActive(c, Stored(was, t[0]), w, t[1..], q[1..]);
        }
      }
    }
  }

  lemma {:induction false} LeadsElsewhere(n: Node, was: Option<StateValue>, now: StateValue, t: Path, q: Path, j: nat)
    requires WellShaped(n) && Wf(n, now) && t != [] && NodeAt(n, t).Some? && LeadsTo(n, was, now, t)
    requires was.Some? ==> Wf(n, was.value)
    requires j < |q| && j < |t| && q[..j] == t[..j] && q[j] != t[j]
    ensures NodeAt(n, t[..j]).Some?
    ensures IsActive(n, now, q) <==> NodeAt(n, t[..j]).value.kind == Parallel && was.Some? && IsActive(n, was.value, q)
    decreases |t|
  {
    if j == 0 {
      assert t[..0] == [];
      if n.kind == Parallel {
        assert Get(now.fields, q[0]) == Stored(was, q[0]);
      } else if now.Obj? {
        assert Get(now.fields.rest, t[0]) == None;
      }
    } else {
      var key := t[0];
      var c := Get(n.states, key).value;
      assert q[0] == q[..j][0] == key;
      assert q == [key] + q[1..] && t[..j][1..] == t[1..][..j - 1] && q[..j][1..] == q[1..][..j - 1];
      WellShapedChild(n.states, key);
      StoredIsWf(n, now, key);
      if was.Some? { StoredIsWf(n, was.value, key); }
      LeadsElsewhere(c, Stored(was, key), Get(now.fields, key).value, t[1..], q[1..], j - 1);
    }
  }

  /** The configuration `next` is where a transition to `t` leads from `v`. The target and the states above
      it are active; below it, exactly its initial descendants are; and a state that parts from the path to
      the target is active exactly when it was, in another region of a parallel state. */
  ghost predicate Lands(m: Machine, v: StateValue, t: Path, next: StateValue) {
    && Wf(LiveRoot(m), next) && NodeAt(LiveRoot(m), t).Some? && forall q :: LandsAt(LiveRoot(m), v, t, next, q)
  }

  ghost predicate LandsAt(root: Node, v: StateValue, t: Path, next: StateValue, q: Path)
    requires NodeAt(root, t).Some?
  {
    && (q <= t ==> IsActive(root, next, q))
    && (t <= q ==> (IsActive(root, next, q) <==> FollowsInitial(NodeAt(root, t).value, q[|t|..])))
    && forall j :: 0 <= j < |q| && j < |t| && q[..j] == t[..j] && q[j] != t[j] ==>
         (IsActive(root, next, q) <==>
            NodeAt(root, t[..j]).Some? && NodeAt(root, t[..j]).value.kind == Parallel && IsActive(root, v, q))
  }

  /** Main result: every safe transition, from any source, lands on its target. */
  lemma NextIsTarget(m: Machine, v: StateValue, s: Path, t: Path)
    requires ValidTree(m) && Wf(LiveRoot(m), v) && s != [] && NodeAt(LiveRoot(m), s).Some?
    requires GetNodeByPath(m, t).Some? && SafeTarget(m, v, s, t)
    ensures Lands(m, v, t, NextValue(m, v, s, t))
  {
    var root := LiveRoot(m);
    var next := NextValue(m, v, s, t);
    LiveRootShape(m);
    NextIsWellFormedIff(m, v, s, t);
    NextLeads(m, v, s, t);
    forall q ensures LandsAt(root, v, t, next, q) {
      LeadsActive(root, Some(v), next, t, q);
      forall j | 0 <= j < |q| && j < |t| && q[..j] == t[..j] && q[j] != t[j]
        ensures IsActive(root, next, q) <==>
          NodeAt(root, t[..j]).Some? && NodeAt(root, t[..j]).value.kind == Parallel && IsActive(root, v, q)
      {
        LeadsElsewhere(root, Some(v), next, t, q, j);
      }
    }
  }

  /** The two paths agree up to where one ends or they part. */
  lemma {:induction false} WhereTheyPart(q: Path, t: Path) returns (j: nat)
    ensures j <= |q| && j <= |t| && q[..j] == t[..j] && (j < |q| && j < |t| ==> q[j] != t[j])
    decreases |q|
  {
    if q == [] || t == [] || q[0] != t[0] {
      j := 0;
    } else {
      j := WhereTheyPart(q[1..], t[1..]);
      assert q[..j + 1] == [q[0]] + q[1..][..j] && t[..j + 1] == [t[0]] + t[1..][..j];
      j := j + 1;
    }
  }

  /** Main result: there is no other configuration like that. */
  lemma LandingIsUnique(m: Machine, v: StateValue, t: Path, x: StateValue, y: StateValue)
    requires ValidTree(m) && Lands(m, v, t, x) && Lands(m, v, t, y)
    ensures x == y
  {
    var root := LiveRoot(m);
    LiveRootShape(m);
    forall q ensures IsActive(root, x, q) <==> IsActive(root, y, q) {
      assert LandsAt(root, v, t, x, q) && LandsAt(root, v, t, y, q);
      var j := WhereTheyPart(q, t);
      assert q[..|q|] == q && t[..|t|] == t;
    }
    ActiveDetermines(root, x, y);
  }
}
