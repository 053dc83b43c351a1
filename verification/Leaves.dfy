/** Active leaves (engine/statechart.ts, getActiveLeafPaths) and the exit effects collected from
    them (collectBottomUpExitEffects). */
module Leaves {
  import opened Records
  import opened Machines
  import opened PathLists
  import opened Configurations

  // ---- The scan of the source, which looks nodes up by path ----

  function ActiveLeafPaths(m: Machine, v: StateValue, parent: Path): (leaves: seq<Path>)
    ensures forall i :: 0 <= i < |leaves| ==> parent < leaves[i]
    decreases v, 0
  {
    match v
    case Leaf(k) => [parent + [k]]
    case Obj(fields) => EntryLeaves(m, fields, parent)
  }

  function EntryLeaves(m: Machine, fields: Record<StateValue>, parent: Path): (leaves: seq<Path>)
    ensures forall i :: 0 <= i < |leaves| ==> parent < leaves[i]
    decreases fields, 1
  {
    match fields
    case Empty => []
    case Field(k, w, rest) =>
      var node := GetNodeByPath(m, parent + [k]);
      (if node.Some? && node.value.kind == Parallel && w.Obj? then RegionLeaves(m, w.fields, parent + [k])
       else ActiveLeafPaths(m, w, parent + [k])) + EntryLeaves(m, rest, parent)
  }

  function RegionLeaves(m: Machine, fields: Record<StateValue>, parent: Path): (leaves: seq<Path>)
    ensures forall i :: 0 <= i < |leaves| ==> parent < leaves[i]
    decreases fields, 0
  {
    match fields
    case Empty => []
    case Field(k, w, rest) => OneRegionLeaves(m, k, w, parent) + RegionLeaves(m, rest, parent)
  }

  function OneRegionLeaves(m: Machine, k: string, w: StateValue, parent: Path): (leaves: seq<Path>)
    ensures forall i :: 0 <= i < |leaves| ==> parent < leaves[i]
    decreases w, 1
  {
    var region := GetNodeByPath(m, parent + [k]);
    if region.Some? && IsLeaf(region.value) then [parent + [k]]
    else if w.Leaf? then [parent + [k] + [w.name]]
    else ActiveLeafPaths(m, w, parent + [k])
  }

  // ---- The leaves of the configuration tree ----

  function TreeLeaves(n: Node, v: StateValue): seq<Path>
    decreases v, 0
  {
    match v
    case Leaf(k) => [[k]]
    case Obj(fields) => TreeFieldLeaves(n, fields)
  }

  function TreeFieldLeaves(n: Node, fields: Record<StateValue>): seq<Path>
    decreases fields, 0
  {
    match fields
    case Empty => []
    case Field(k, w, rest) =>
      var c := Get(n.states, k);
      (if c.Some? && IsLeaf(c.value) then [[k]]
       else Under(k, if c.Some? then TreeLeaves(c.value, w) else [])) + TreeFieldLeaves(n, rest)
  }

  /** For a node that the scan enters as a map of children: the root, and the regions of a parallel child.
      If it is parallel, it has no leaf for a region; the scan would read such a region wrongly. */
  ghost predicate ReadableRegions(n: Node)
    decreases n, 1
  {
    && (n.kind == Parallel ==> forall k :: Has(n.states, k) ==> !IsLeaf(Get(n.states, k).value))
    && AllReadable(n.states, true)
  }

  /** The same for its children, where a parallel node may have leaf regions. */
  ghost predicate ReadableChild(n: Node)
    decreases n, 2
  {
    if n.kind == Parallel then AllReadable(n.states, false) else ReadableRegions(n)
  }

  ghost predicate AllReadable(states: Record<Node>, children: bool)
    decreases states, 0
  {
    match states
    case Empty => true
    case Field(_, n, rest) => (if children then ReadableChild(n) else ReadableRegions(n)) && AllReadable(rest, children)
  }

  lemma {:induction false} ReadableBelow(states: Record<Node>, children: bool, key: string)
    requires AllReadable(states, children) && Has(states, key)
    ensures if children then ReadableChild(Get(states, key).value) else ReadableRegions(Get(states, key).value)
  {
    match states
    case Field(k, _, rest) => if k != key { ReadableBelow(rest, children, key); }
  }

  /** The same for what is active: the condition is asked only of active nodes. */
  ghost predicate ReadableNow(n: Node, v: StateValue)
    decreases v, 2
  {
    v.Obj? ==>
      && (n.kind == Parallel ==> forall k :: Has(n.states, k) ==> !IsLeaf(Get(n.states, k).value))
      && FieldsReadable(n, v.fields, true)
  }

  ghost predicate ReadableEntry(c: Node, w: StateValue)
    decreases w, 3
  {
    if c.kind == Parallel && w.Obj? then FieldsReadable(c, w.fields, false) else ReadableNow(c, w)
  }

  ghost predicate FieldsReadable(n: Node, fields: Record<StateValue>, children: bool)
    decreases fields, 0
  {
    match fields
    case Empty => true
    case Field(k, w, rest) =>
      && (Has(n.states, k) ==>
            var c := Get(n.states, k).value;
            if children then ReadableEntry(c, w) else IsLeaf(c) || ReadableNow(c, w))
      && FieldsReadable(n, rest, children)
  }

  lemma {:induction false} ReadableIsNow(n: Node, v: StateValue)
    requires ReadableRegions(n)
    ensures ReadableNow(n, v)
    decreases v, 2
  {
    if v.Obj? { ReadableFields(n, v.fields, true); }
  }

  lemma {:induction false} ReadableFields(n: Node, fields: Record<StateValue>, children: bool)
    requires AllReadable(n.states, children)
    ensures FieldsReadable(n, fields, children)
    decreases fields, 0
  {
    match fields
    case Empty =>
    case Field(k, w, rest) =>
      ReadableFields(n, rest, children);
      if Has(n.states, k) {
        ReadableBelow(n.states, children, k);
        var c := Get(n.states, k).value;
        if !children || c.kind != Parallel {
          ReadableIsNow(c, w);
        } else if w.Obj? {
          ReadableFields(c, w.fields, false);
        } else {
          assert ReadableNow(c, w);
        }
      }
  }

  /** The subtree of the machine at `parent` is `n`. */
  ghost predicate Located(m: Machine, parent: Path, n: Node) {
    forall k :: Has(n.states, k) ==> GetNodeByPath(m, parent + [k]) == Get(n.states, k)
  }

  lemma LocatedChild(m: Machine, parent: Path, n: Node, key: string)
    requires Located(m, parent, n) && Has(n.states, key)
    ensures Located(m, parent + [key], Get(n.states, key).value)
  {
    var c := Get(n.states, key).value;
    forall k | Has(c.states, k) ensures GetNodeByPath(m, parent + [key] + [k]) == Get(c.states, k) {
      NodeAtConcat(Root(m), parent + [key], [k]);
      assert [k][1..] == [];
    }
  }

  /** The scan agrees with the tree: it finds every leaf, and nothing else, in tree order. */
  lemma {:induction false} ScanIsTree(m: Machine, n: Node, v: StateValue, parent: Path)
    requires Located(m, parent, n) && WellShaped(n) && ReadableNow(n, v) && Wf(n, v)
    ensures ActiveLeafPaths(m, v, parent) == Below(parent, TreeLeaves(n, v))
    decreases v, 2
  {
    if v.Obj? {
      if n.kind == Parallel {
        ScanEntries(m, n, v.fields, parent, n.states);
      } else {
        var k := v.fields.key;
        WellShapedChild(n.states, k);
        LocatedChild(m, parent, n, k);
        ScanEntry(m, Get(n.states, k).value, v.fields.val, parent + [k]);
        BelowUnder(parent, k, TreeLeaves(Get(n.states, k).value, v.fields.val));
        assert TreeFieldLeaves(n, v.fields) == Under(k, TreeLeaves(Get(n.states, k).value, v.fields.val));
        assert EntryLeaves(m, v.fields.rest, parent) == [];
      }
    }
  }

  /** One entry of an object: the scan takes its parallel branch, or recurses. */
  lemma {:induction false} ScanEntry(m: Machine, c: Node, w: StateValue, at: Path)
    requires Located(m, at, c) && WellShaped(c) && ReadableEntry(c, w) && Wf(c, w)
    ensures (if c.kind == Parallel then RegionLeaves(m, w.fields, at) else ActiveLeafPaths(m, w, at)) == Below(at, TreeLeaves(c, w))
    decreases w, 3
  {
    if c.kind == Parallel { ScanRegions(m, c, w.fields, at, c.states); } else { ScanIsTree(m, c, w, at); }
  }

  /** The entries of a parallel node, none of them a leaf. */
  lemma {:induction false} ScanEntries(m: Machine, n: Node, fields: Record<StateValue>, parent: Path, regions: Record<Node>)
    requires Located(m, parent, n) && n.kind == Parallel && FieldsReadable(n, fields, true)
    requires forall k :: Has(n.states, k) ==> !IsLeaf(Get(n.states, k).value)
    requires AllWellShaped(regions) && DistinctKeys(regions)
    requires forall k :: Has(regions, k) ==> Get(n.states, k) == Get(regions, k)
    requires WfRegions(regions, fields)
    ensures EntryLeaves(m, fields, parent) == Below(parent, TreeFieldLeaves(n, fields))
    decreases fields
  {
    match fields
    case Empty =>
    case Field(k, w, rest) =>
      assert Has(regions, k);
      LocatedChild(m, parent, n, k);
      ScanEntry(m, regions.val, w, parent + [k]);
      BelowUnder(parent, k, TreeLeaves(regions.val, w));
      forall j | Has(regions.rest, j) ensures Get(n.states, j) == Get(regions.rest, j) { assert Has(regions, j); }
      ScanEntries(m, n, rest, parent, regions.rest);
      BelowAppend(parent, Under(k, TreeLeaves(regions.val, w)), TreeFieldLeaves(n, rest));
  }

  /** The regions of a parallel child, leaves included. */
  lemma {:induction false} ScanRegions(m: Machine, n: Node, fields: Record<StateValue>, parent: Path, regions: Record<Node>)
    requires Located(m, parent, n) && n.kind == Parallel && FieldsReadable(n, fields, false)
    requires AllWellShaped(regions) && DistinctKeys(regions)
    requires forall k :: Has(regions, k) ==> Get(n.states, k) == Get(regions, k)
    requires WfRegions(regions, fields)
    ensures RegionLeaves(m, fields, parent) == Below(parent, TreeFieldLeaves(n, fields))
    decreases fields
  {
    match fields
    case Empty =>
    case Field(k, w, rest) =>
      assert Has(regions, k);
      forall j | Has(regions.rest, j) ensures Get(n.states, j) == Get(regions.rest, j) { assert Has(regions, j); }
      ScanRegions(m, n, rest, parent, regions.rest);
      if IsLeaf(regions.val) {
        BelowAppend(parent, [[k]], TreeFieldLeaves(n, rest));
        assert Below(parent, [[k]]) == [parent + [k]];
      } else {
        LocatedChild(m, parent, n, k);
        ScanIsTree(m, regions.val, w, parent + [k]);
        BelowUnder(parent, k, TreeLeaves(regions.val, w));
        BelowAppend(parent, Under(k, TreeLeaves(regions.val, w)), TreeFieldLeaves(n, rest));
      }
  }

  /** Main result on the scan: it finds the leaves of the configuration exactly when no active node that
      it enters as a map of children is parallel with a leaf for a region. */
  lemma {:induction false} ScanIff(m: Machine, n: Node, v: StateValue, parent: Path)
    requires Located(m, parent, n) && WellShaped(n) && Wf(n, v)
    ensures ActiveLeafPaths(m, v, parent) == Below(parent, TreeLeaves(n, v)) <==> ReadableNow(n, v)
  {
    if ReadableNow(n, v) {
      ScanIsTree(m, n, v, parent);
    } else {
      var p := Misread(m, n, v, parent);
      if parent + p in Below(parent, TreeLeaves(n, v)) {
        BelowMember(parent, TreeLeaves(n, v), parent + p);
        assert (parent + p)[|parent|..] == p;
        var i :| 0 <= i < |TreeLeaves(n, v)| && TreeLeaves(n, v)[i] == p;
        assert p <= TreeLeaves(n, v)[i];
        ActiveLeadsToLeaf(n, v, p);
      }
    }
  }

  /** Otherwise the scan returns a path that is not active. */
  lemma {:induction false} Misread(m: Machine, n: Node, v: StateValue, parent: Path) returns (p: Path)
    requires Located(m, parent, n) && WellShaped(n) && Wf(n, v) && !ReadableNow(n, v)
    ensures parent + p in ActiveLeafPaths(m, v, parent) && !IsActive(n, v, p)
    decreases v, 2
  {
    if n.kind == Parallel && exists k :: Has(n.states, k) && IsLeaf(Get(n.states, k).value) {
      var k :| Has(n.states, k) && IsLeaf(Get(n.states, k).value);
      assert v.Obj? && WfRegions(n.states, v.fields);
      RegionOf(n.states, v.fields, k);
      MisreadEntry(m, v.fields, parent, k);
      p := [k, k];
      assert parent + [k] + [k] == parent + p;
    } else {
      if n.kind == Parallel { DistinctFields(n.states, v.fields); }
      p := MisreadField(m, n, v, v.fields, parent, true);
    }
  }

  /** A key that is stored under a region of the same name is read as its child. */
  lemma {:induction false} MisreadEntry(m: Machine, fields: Record<StateValue>, parent: Path, k: string)
    requires Get(fields, k) == Some(Leaf(k))
    ensures parent + [k] + [k] in EntryLeaves(m, fields, parent)
  {
    if fields.key == k {
      assert ActiveLeafPaths(m, Leaf(k), parent + [k]) == [parent + [k] + [k]];
    } else {
      MisreadEntry(m, fields.rest, parent, k);
    }
  }

  /** The misread field is among `fields`, the last fields of `v`. */
  lemma {:induction false} MisreadField(m: Machine, n: Node, v: StateValue, fields: Record<StateValue>, parent: Path, children: bool) returns (p: Path)
    requires Located(m, parent, n) && WellShaped(n) && Wf(n, v) && v.Obj? && !FieldsReadable(n, fields, children)
    requires DistinctKeys(fields) && forall k :: Has(fields, k) ==> Get(v.fields, k) == Get(fields, k)
    requires children && n.kind == Parallel ==> forall k :: Has(n.states, k) ==> !IsLeaf(Get(n.states, k).value)
    requires !children ==> n.kind == Parallel
    ensures !IsActive(n, v, p)
    ensures parent + p in if children then EntryLeaves(m, fields, parent) else RegionLeaves(m, fields, parent)
    decreases fields, 0
  {
    var k, w, rest := fields.key, fields.val, fields.rest;
    if !FieldsReadable(n, rest, children) {
      forall j | Has(rest, j) ensures Get(v.fields, j) == Get(rest, j) { assert Has(fields, j); }
      p := MisreadField(m, n, v, rest, parent, children);
    } else {
      assert Get(v.fields, k) == Some(w) by { assert Has(fields, k); }
      var c := Get(n.states, k).value;
      WellShapedChild(n.states, k);
      LocatedChild(m, parent, n, k);
      StoredField(n, v, k, w);
      var q := MisreadChild(m, c, w, parent + [k], children);
      p := [k] + q;
      assert parent + p == parent + [k] + q && p[1..] == q;
    }
  }

  lemma {:induction false} MisreadChild(m: Machine, c: Node, w: StateValue, at: Path, children: bool) returns (q: Path)
    requires Located(m, at, c) && WellShaped(c) && Wf(c, w) && (if children then !ReadableEntry(c, w) else !ReadableNow(c, w))
    ensures !IsActive(c, w, q)
    ensures at + q in if children && c.kind == Parallel then RegionLeaves(m, w.fields, at) else ActiveLeafPaths(m, w, at)
    decreases w, 3
  {
    if children && c.kind == Parallel {
      DistinctFields(c.states, w.fields);
      q := MisreadField(m, c, w, w.fields, at, false);
    } else {
      q := Misread(m, c, w, at);
    }
  }

  lemma {:induction false} StoredField(n: Node, v: StateValue, k: string, w: StateValue)
    requires Wf(n, v) && v.Obj? && Get(v.fields, k) == Some(w) && Has(n.states, k)
    requires n.kind == Parallel ==> !IsLeaf(Get(n.states, k).value)
    ensures !IsLeaf(Get(n.states, k).value) && Wf(Get(n.states, k).value, w)
  {
    if n.kind == Parallel {
      RegionOf(n.states, v.fields, k);
    }
  }

  lemma {:induction false} DistinctFields(regions: Record<Node>, fields: Record<StateValue>)
    requires WfRegions(regions, fields) && DistinctKeys(regions)
    ensures DistinctKeys(fields)
    decreases fields
  {
    match fields
    case Empty =>
    case Field(k, _, rest) =>
      RegionOf(regions.rest, rest, k);
      DistinctFields(regions.rest, rest);
  }

  // ---- What the leaves say about activity ----

  ghost predicate LeadsToLeaf(leaves: seq<Path>, p: Path) {
    exists i :: 0 <= i < |leaves| && p <= leaves[i]
  }

  lemma LeadsUnder(key: string, ps: seq<Path>, p: Path)
    requires p != []
    ensures LeadsToLeaf(Under(key, ps), p) <==> p[0] == key && LeadsToLeaf(ps, p[1..])
  {
    if LeadsToLeaf(Under(key, ps), p) {
      var i :| 0 <= i < |ps| && p <= Under(key, ps)[i];
      assert Under(key, ps)[i] == [key] + ps[i];
      assert p[1..] <= ps[i];
    }
    if p[0] == key && LeadsToLeaf(ps, p[1..]) {
      var i :| 0 <= i < |ps| && p[1..] <= ps[i];
      assert Under(key, ps)[i] == [key] + ps[i] && p == [p[0]] + p[1..];
      assert p <= Under(key, ps)[i];
    }
  }

  lemma LeadsAppend(ps: seq<Path>, qs: seq<Path>, p: Path)
    ensures LeadsToLeaf(ps + qs, p) <==> LeadsToLeaf(ps, p) || LeadsToLeaf(qs, p)
  {
    if LeadsToLeaf(ps, p) {
      var i :| 0 <= i < |ps| && p <= ps[i];
      assert p <= (ps + qs)[i];
    }
    if LeadsToLeaf(qs, p) {
      var i :| 0 <= i < |qs| && p <= qs[i];
      assert p <= (ps + qs)[|ps| + i];
    }
  }

  lemma LeadsFirst(leaves: seq<Path>, p: Path)
    requires leaves != []
    ensures LeadsToLeaf(leaves, p) <==> p <= leaves[0] || LeadsToLeaf(leaves[1..], p)
  {
    LeadsAppend([leaves[0]], leaves[1..], p);
    assert leaves == [leaves[0]] + leaves[1..];
    if p <= leaves[0] { assert p <= [leaves[0]][0]; }
  }

  /** A path is active exactly when it leads to an active leaf. */
  lemma {:induction false} ActiveLeadsToLeaf(n: Node, v: StateValue, p: Path)
    requires WellShaped(n) && Wf(n, v)
    ensures IsActive(n, v, p) <==> LeadsToLeaf(TreeLeaves(n, v), p)
    decreases v, 1
  {
    if v.Leaf? {
      assert TreeLeaves(n, v)[0] == [v.name];
      LeafPath(v.name, p);
    } else if p == [] {
      SomeLeaf(n, v);
      assert p <= TreeLeaves(n, v)[0];
    } else if n.kind == Parallel {
      FieldsLeadToLeaf(n, n.states, v.fields, p);
    } else {
      var c := Get(n.states, v.fields.key).value;
      WellShapedChild(n.states, v.fields.key);
      ActiveLeadsToLeaf(c, v.fields.val, p[1..]);
      assert TreeFieldLeaves(n, v.fields) == Under(v.fields.key, TreeLeaves(c, v.fields.val));
      LeadsUnder(v.fields.key, TreeLeaves(c, v.fields.val), p);
    }
  }

  lemma LeafPath(key: string, p: Path)
    ensures LeadsToLeaf([[key]], p) <==> p == [] || (|p| == 1 && p[0] == key)
  {
    if p == [] || (|p| == 1 && p[0] == key) { assert p <= [[key]][0]; }
  }

  lemma {:induction false} FieldsLeadToLeaf(n: Node, regions: Record<Node>, fields: Record<StateValue>, p: Path)
    requires AllWellShaped(regions) && DistinctKeys(regions) && WfRegions(regions, fields) && p != []
    requires forall k :: Has(regions, k) ==> Get(n.states, k) == Get(regions, k)
    ensures LeadsToLeaf(TreeFieldLeaves(n, fields), p) <==>
      Has(regions, p[0]) && Has(fields, p[0]) &&
      (if IsLeaf(Get(regions, p[0]).value) then |p| == 1
       else IsActive(Get(regions, p[0]).value, Get(fields, p[0]).value, p[1..]))
    decreases fields
  {
    match fields
    case Empty =>
    case Field(k, w, rest) =>
      var c := regions.val;
      assert Has(regions, k);
      forall j | Has(regions.rest, j) ensures Get(n.states, j) == Get(regions.rest, j) { assert Has(regions, j); }
      FieldsLeadToLeaf(n, regions.rest, rest, p);
      if IsLeaf(c) {
        LeadsAppend([[k]], TreeFieldLeaves(n, rest), p);
        LeafPath(k, p);
      } else {
        LeadsAppend(Under(k, TreeLeaves(c, w)), TreeFieldLeaves(n, rest), p);
        LeadsUnder(k, TreeLeaves(c, w), p);
        ActiveLeadsToLeaf(c, w, p[1..]);
      }
  }

  lemma {:induction false} SomeLeaf(n: Node, v: StateValue)
    requires WellShaped(n) && Wf(n, v)
    ensures TreeLeaves(n, v) != [] && forall i :: 0 <= i < |TreeLeaves(n, v)| ==> TreeLeaves(n, v)[i] != []
    decreases v
  {
    if v.Obj? {
      var k := v.fields.key;
      var c := Get(n.states, k).value;
      WellShapedChild(n.states, k);
      if !IsLeaf(c) {
        if n.kind == Parallel { RegionOf(n.states, v.fields, k); }
        SomeLeaf(c, v.fields.val);
      }
      FieldLeavesNonEmpty(n, v.fields);
    }
  }

  lemma {:induction false} FieldLeavesNonEmpty(n: Node, fields: Record<StateValue>)
    ensures forall i :: 0 <= i < |TreeFieldLeaves(n, fields)| ==> TreeFieldLeaves(n, fields)[i] != []
    decreases fields
  {
    match fields
    case Empty =>
    case Field(_, _, rest) => FieldLeavesNonEmpty(n, rest);
  }

  // ---- Exit effects ----

  /** From a leaf up to the root of the exited subtree. */
  function Chain(leaf: Path, prefix: Path): seq<Path>
    requires leaf != [] && prefix <= leaf
  {
    seq(|leaf| - Top(prefix) + 1, i requires 0 <= i < |leaf| - Top(prefix) + 1 => leaf[..|leaf| - i])
  }

  function Top(prefix: Path): nat {
    if prefix == [] then 1 else |prefix|
  }

  /** The order in which the nodes below `prefix` are exited, after those already `seen`. */
  function ExitOrder(leaves: seq<Path>, prefix: Path, seen: seq<Path>): seq<Path>
    requires forall i :: 0 <= i < |leaves| ==> leaves[i] != []
    decreases |leaves|
  {
    if leaves == [] then seen
    else ExitOrder(leaves[1..], prefix,
                   if prefix <= leaves[0] then AddNew(seen, Chain(leaves[0], prefix)) else seen)
  }

  /** Every path either is a leaf of the list or directly follows its first child; ancestors inside the
      subtree are never missing. */
  ghost predicate Upward(order: seq<Path>, leaves: seq<Path>, prefix: Path) {
    && NoDup(order)
    && (forall i :: 0 <= i < |order| ==> order[i] != [] && prefix <= order[i])
    && (forall i :: 0 <= i < |order| ==> FollowsChild(order, leaves, i))
    && (forall p :: p in order && |p| > Top(prefix) ==> p[..|p| - 1] in order)
  }

  ghost predicate FollowsChild(order: seq<Path>, leaves: seq<Path>, i: nat)
    requires i < |order|
  {
    || order[i] in leaves
    || (i > 0 && IsParent(order[i], order[i - 1]) && forall e :: 0 <= e < i - 1 ==> !IsParent(order[i], order[e]))
  }

  lemma {:induction false} AddNewSplit(seen: seq<Path>, ps: seq<Path>, j: nat)
    requires j <= |ps| && NoDup(ps)
    requires forall i :: 0 <= i < j ==> ps[i] !in seen
    requires forall i :: j <= i < |ps| ==> ps[i] in seen
    ensures AddNew(seen, ps) == seen + ps[..j]
    decreases |ps|
  {
    if ps != [] {
      if j == 0 {
        AddNewSplit(seen, ps[1..], 0);
      } else {
        var next := seen + [ps[0]];
        forall i | 0 <= i < j - 1 ensures ps[1..][i] !in next { assert ps[1..][i] == ps[i + 1] != ps[0]; }
        AddNewSplit(next, ps[1..], j - 1);
        assert [ps[0]] + ps[1..][..j - 1] == ps[..j];
      }
    }
  }

  lemma {:induction false} AncestorsSeen(seen: seq<Path>, leaf: Path, prefix: Path, len: nat, top: nat)
    requires Top(prefix) <= top <= len <= |leaf| && leaf[..len] in seen
    requires forall p :: p in seen && |p| > Top(prefix) ==> p[..|p| - 1] in seen
    ensures leaf[..top] in seen
    decreases len
  {
    if top < len {
      assert leaf[..len][..len - 1] == leaf[..len - 1];
      AncestorsSeen(seen, leaf, prefix, len - 1, top);
    }
  }

  /** Where the climb from `leaf` meets the nodes already seen. */
  ghost function Meeting(seen: seq<Path>, ps: seq<Path>): (j: nat)
    ensures j <= |ps| && (forall i :: 0 <= i < j ==> ps[i] !in seen)
    ensures j < |ps| ==> ps[j] in seen
    decreases |ps|
  {
    if ps == [] || ps[0] in seen then 0
    else
      var j := Meeting(seen, ps[1..]);
      assert forall i :: 0 < i < j + 1 ==> ps[i] == ps[1..][i - 1];
      j + 1
  }

  lemma ChainAt(leaf: Path, prefix: Path, p: Path)
    requires leaf != [] && prefix <= leaf
    ensures NoDup(Chain(leaf, prefix))
    ensures p in Chain(leaf, prefix) <==> p != [] && prefix <= p && p <= leaf
    ensures p != [] && prefix <= p && p <= leaf ==> Chain(leaf, prefix)[|leaf| - |p|] == p
  {
    var chain := Chain(leaf, prefix);
    forall a, b | 0 <= a < b < |chain| ensures chain[a] != chain[b] { assert |chain[a]| > |chain[b]|; }
    if p in chain {
      var i :| 0 <= i < |chain| && chain[i] == p;
      assert p == leaf[..|leaf| - i];
    }
    if p != [] && prefix <= p && p <= leaf {
      assert chain[|leaf| - |p|] == p;
    }
  }

  /** Adding a chain keeps its part below the first node already seen. */
  lemma AddChainShape(seen: seq<Path>, prefix: Path, leaf: Path) returns (j: nat)
    requires leaf != [] && prefix <= leaf
    requires forall p :: p in seen && |p| > Top(prefix) ==> p[..|p| - 1] in seen
    ensures j <= |Chain(leaf, prefix)| && AddNew(seen, Chain(leaf, prefix)) == seen + Chain(leaf, prefix)[..j]
    ensures forall i :: 0 <= i < j ==> Chain(leaf, prefix)[i] !in seen
    ensures forall i :: j <= i < |Chain(leaf, prefix)| ==> Chain(leaf, prefix)[i] in seen
  {
    var chain := Chain(leaf, prefix);
    j := Meeting(seen, chain);
    ChainAt(leaf, prefix, leaf);
    forall i | j <= i < |chain| ensures chain[i] in seen {
      AncestorsSeen(seen, leaf, prefix, |leaf| - j, |leaf| - i);
    }
    AddNewSplit(seen, chain, j);
  }

  lemma AddChainMembers(seen: seq<Path>, prefix: Path, leaf: Path, p: Path)
    requires leaf != [] && prefix <= leaf
    requires forall q :: q in seen && |q| > Top(prefix) ==> q[..|q| - 1] in seen
    ensures p in AddNew(seen, Chain(leaf, prefix)) <==> p in seen || (p != [] && prefix <= p && p <= leaf)
  {
    var j := AddChainShape(seen, prefix, leaf);
    var chain := Chain(leaf, prefix);
    ChainAt(leaf, prefix, p);
    if p in chain[..j] { assert p in chain; }
    if p != [] && prefix <= p && p <= leaf && |leaf| - |p| < j {
      assert chain[..j][|leaf| - |p|] == p;
    }
  }

  lemma AddChainFollows(seen: seq<Path>, leaves: seq<Path>, prefix: Path, leaf: Path, j: nat, i: nat)
    requires leaf != [] && prefix <= leaf && leaf in leaves && j <= |Chain(leaf, prefix)| && i < |seen| + j
    requires forall e :: 0 <= e < |seen| ==> FollowsChild(seen, leaves, e)
    requires forall p :: p in seen && |p| > Top(prefix) ==> p[..|p| - 1] in seen
    requires forall e :: 0 <= e < j ==> Chain(leaf, prefix)[e] !in seen
    ensures FollowsChild(seen + Chain(leaf, prefix)[..j], leaves, i)
  {
    var chain := Chain(leaf, prefix);
    var order := seen + chain[..j];
    if i < |seen| {
      assert FollowsChild(seen, leaves, i);
    } else if i == |seen| {
      assert order[i] == chain[0] == leaf;
    } else {
      assert order[i - 1] == chain[i - 1 - |seen|] && order[i] == chain[i - |seen|];
      assert order[i - 1][..|order[i - 1]| - 1] == order[i];
      forall e | 0 <= e < i - 1 ensures !IsParent(order[i], order[e]) {
        if e < |seen| {
          assert order[e] == seen[e] && order[i] !in seen && |order[i]| >= Top(prefix);
        } else {
          assert order[e] == chain[e - |seen|];
        }
      }
    }
  }

  lemma AddChainNoDup(seen: seq<Path>, prefix: Path, leaf: Path, j: nat)
    requires leaf != [] && prefix <= leaf && j <= |Chain(leaf, prefix)| && NoDup(seen)
    requires forall i :: 0 <= i < j ==> Chain(leaf, prefix)[i] !in seen
    ensures NoDup(seen + Chain(leaf, prefix)[..j])
  {
    var chain := Chain(leaf, prefix);
    var order := seen + chain[..j];
    ChainAt(leaf, prefix, leaf);
    forall a, b | 0 <= a < b < |order| ensures order[a] != order[b] {
      if a < |seen| <= b {
        assert order[b] == chain[b - |seen|] && order[b] !in seen && order[a] in seen;
      } else if a >= |seen| {
        assert order[a] == chain[a - |seen|] && order[b] == chain[b - |seen|];
      }
    }
  }

  lemma AddChain(seen: seq<Path>, leaves: seq<Path>, prefix: Path, leaf: Path)
    requires Upward(seen, leaves, prefix) && leaf in leaves && leaf != [] && prefix <= leaf
    ensures Upward(AddNew(seen, Chain(leaf, prefix)), leaves, prefix)
  {
    var j := AddChainShape(seen, prefix, leaf);
    var order := AddNew(seen, Chain(leaf, prefix));
    AddChainNoDup(seen, prefix, leaf, j);
    forall p | p in order && |p| > Top(prefix) ensures p[..|p| - 1] in order {
      AddChainMembers(seen, prefix, leaf, p);
      AddChainMembers(seen, prefix, leaf, p[..|p| - 1]);
      if p !in seen { assert p[..|p| - 1] <= leaf && prefix <= p[..|p| - 1]; }
    }
    forall i | 0 <= i < |order| ensures FollowsChild(order, leaves, i) {
      AddChainFollows(seen, leaves, prefix, leaf, j, i);
    }
    forall i | 0 <= i < |order| ensures order[i] != [] && prefix <= order[i] {
      AddChainMembers(seen, prefix, leaf, order[i]);
    }
  }

  /** Main result on exits: each exited node is listed once, a leaf or directly after the first of its
      children. */
  lemma {:induction false} ExitOrderIsUpward(leaves: seq<Path>, all: seq<Path>, prefix: Path, seen: seq<Path>)
    requires forall i :: 0 <= i < |leaves| ==> leaves[i] != [] && leaves[i] in all
    requires Upward(seen, all, prefix)
    ensures Upward(ExitOrder(leaves, prefix, seen), all, prefix)
    decreases |leaves|
  {
    if leaves != [] {
      var leaf := leaves[0];
      assert leaf in all;
      if prefix <= leaf { AddChain(seen, all, prefix, leaf); }
      ExitOrderIsUpward(leaves[1..], all, prefix, if prefix <= leaf then AddNew(seen, Chain(leaf, prefix)) else seen);
    }
  }

  /** The exited nodes are those below `prefix` that lead to a leaf. */
  lemma {:induction false} ExitOrderMembers(leaves: seq<Path>, all: seq<Path>, prefix: Path, seen: seq<Path>, p: Path)
    requires forall i :: 0 <= i < |leaves| ==> leaves[i] != [] && leaves[i] in all
    requires Upward(seen, all, prefix)
    ensures p in ExitOrder(leaves, prefix, seen) <==> p in seen || (p != [] && prefix <= p && LeadsToLeaf(leaves, p))
    decreases |leaves|
  {
    if leaves != [] {
      var leaf := leaves[0];
      assert leaf in all;
      if prefix <= leaf {
        AddChain(seen, all, prefix, leaf);
        AddChainMembers(seen, prefix, leaf, p);
      }
      ExitOrderMembers(leaves[1..], all, prefix, if prefix <= leaf then AddNew(seen, Chain(leaf, prefix)) else seen, p);
      LeadsFirst(leaves, p);
    }
  }
}
