/** Completion as the documentation describes it (spec/SPECIFICATION.md, sections on `onDone` and on
    statuses), and exactly when the engine agrees. */
module Documented {
  import opened Records
  import opened Machines
  import opened Configurations
  import opened Entry
  import opened Leaves
  import opened Validation
  import opened Engine
  import opened Completion
  import opened SmallMachines

  /** The node's own active child is a final state. */
  ghost predicate OwnChildFinal(n: Node, v: StateValue) {
    exists k :: IsActive(n, v, [k]) && Has(n.states, k) && Get(n.states, k).value.kind == Final
  }

  /** A single leaf is active below the node, at any depth, and it is final. */
  predicate OnlyLeafFinal(n: Node, v: StateValue) {
    var leaves := TreeLeaves(n, v);
    |leaves| == 1 && NodeAt(n, leaves[0]).Some? && NodeAt(n, leaves[0]).value.kind == Final
  }

  lemma OwnChildIs(n: Node, v: StateValue)
    requires WellShaped(n) && Wf(n, v) && n.kind == Compound
    ensures OwnChildFinal(n, v) <==> v.Leaf? && Get(n.states, v.name).value.kind == Final
  {
    if v.Leaf? {
      assert [v.name][1..] == [];
      assert IsActive(n, v, [v.name]);
    }
  }

  /** A compound container counts as done as documented exactly if its active child is a leaf, or no
      single final leaf is all that is active below it. */
  lemma CompoundDoneIff(n: Node, v: StateValue)
    requires WellShaped(n) && Wf(n, v) && n.kind == Compound
    ensures (Complete(n, v) <==> OwnChildFinal(n, v)) <==> v.Leaf? || !OnlyLeafFinal(n, v)
  {
    OwnChildIs(n, v);
    OneFinalLeafIs(n, v);
    if v.Leaf? { assert TreeLeaves(n, v) == [[v.name]] && [v.name][1..] == []; }
  }

  /** Complete by recursion: a final state; a compound node whose active child is complete; a parallel
      node all of whose regions are. */
  ghost predicate Whole(n: Node, v: StateValue)
    decreases v, 0
  {
    match n.kind
    case Compound => (
      match v
      case Leaf(k) => Has(n.states, k) && Get(n.states, k).value.kind == Final
      case Obj(f) => f.Field? && Has(n.states, f.key) && Whole(Get(n.states, f.key).value, f.val))
    case Parallel => v.Obj? && AllWhole(n.states, v.fields)
    case _ => n.kind == Final
  }

  ghost predicate AllWhole(regions: Record<Node>, fields: Record<StateValue>)
    decreases fields
  {
    match fields
    case Empty => regions.Empty?
    case Field(_, w, rest) => regions.Field? && Whole(regions.val, w) && AllWhole(regions.rest, rest)
  }

  /** The kinds and depths of regions that the engine's test can see: a leaf, or a compound region
      whose active child is a leaf. */
  predicate Shallow(region: Node, w: StateValue) {
    IsLeaf(region) || (region.kind == Compound && w.Leaf?)
  }

  ghost predicate AllShallow(regions: Record<Node>, fields: Record<StateValue>)
    decreases fields
  {
    match fields
    case Empty => regions.Empty?
    case Field(_, w, rest) => regions.Field? && Shallow(regions.val, w) && AllShallow(regions.rest, rest)
  }

  lemma RegionDoneSplits(key: string, region: Node, w: StateValue)
    requires WfRegion(key, region, w)
    ensures RegionDone(region, w) <==> Whole(region, w) && Shallow(region, w)
  {}

  lemma {:induction false} RegionsSplit(regions: Record<Node>, fields: Record<StateValue>)
    requires WfRegions(regions, fields) && DistinctKeys(regions)
    ensures (forall k :: k in Keys(regions) ==>
               Has(regions, k) && Has(fields, k) && RegionDone(Get(regions, k).value, Get(fields, k).value))
      <==> AllWhole(regions, fields) && AllShallow(regions, fields)
    decreases fields
  {
    if fields.Field? {
      RegionDoneSplits(fields.key, regions.val, fields.val);
      RegionsSplit(regions.rest, fields.rest);
      HasIsKey(regions.rest, regions.key);
      assert forall k :: k in Keys(regions) <==> k == regions.key || k in Keys(regions.rest);
    }
  }

  /** A parallel container counts as done as documented exactly if some region is not complete, or
      every region is a leaf or a compound one whose active child is a leaf. */
  lemma ParallelDoneIff(n: Node, v: StateValue)
    requires WellShaped(n) && Wf(n, v) && n.kind == Parallel
    ensures (Complete(n, v) <==> AllWhole(n.states, v.fields))
      <==> !AllWhole(n.states, v.fields) || AllShallow(n.states, v.fields)
  {
    RegionsSplit(n.states, v.fields);
  }

  /** With a region that is itself parallel it never counts as done. */
  lemma ParallelRegionNeverDone(n: Node, v: StateValue, k: string)
    requires WellShaped(n) && Wf(n, v) && n.kind == Parallel
    requires Has(n.states, k) && Get(n.states, k).value.kind == Parallel
    ensures !Complete(n, v)
  {
    HasIsKey(n.states, k);
  }

  /** COMPLETED as documented: the root's active child is a final state other than `error`. */
  ghost predicate RootFinal(m: Machine, v: StateValue) {
    OwnChildFinal(LiveRoot(m), v) && v != Leaf(ErrorKey)
  }

  /** For a compound root the status agrees exactly if the root's active child is a leaf, or some
      active leaf is not final. */
  lemma CompletedIff(m: Machine, v: StateValue)
    requires Running(m, v) && ReadableRegions(LiveRoot(m)) && m.kind == Compound && Has(m.states, ErrorKey)
    ensures (ResolveSettledStatus(m, v, false) == Completed <==> RootFinal(m, v)) <==> v.Leaf? || !EverythingFinal(m, v)
  {
    var root := LiveRoot(m);
    LiveRootShape(m);
    OwnChildIs(root, v);
    SettledStatusMeaning(m, v, false);
    if v.Leaf? {
      assert NodeAt(root, [v.name]) == Get(root.states, v.name) by { assert [v.name][1..] == []; }
      assert IsActive(root, v, [v.name]);
      forall p | IsActive(root, v, p) && NodeAt(root, p).Some? && IsLeaf(NodeAt(root, p).value) ensures p == [v.name] {}
    }
  }

  // ---- Accepted machines on which they differ ----

  lemma LeafPaths(n: Node, p: Path)
    requires n.states.Empty? && n.onDone.None?
    ensures NodeAt(n, p).Some? ==> NodeAt(n, p).value.onDone.None?
  {}

  lemma InnerPaths(p: Path)
    ensures NodeAt(Inner(), p).Some? ==> NodeAt(Inner(), p).value.onDone.None?
  {
    if p != [] {
      OneField("f", Plain(Final, "", Empty), p[0]);
      LeafPaths(Plain(Final, "", Empty), p[1..]);
    }
  }

  lemma OuterPaths(n: Node, p: Path)
    requires (n == Outer() || n == Outer().(onDone := Done)) && (p != [] || n == Outer())
    ensures NodeAt(n, p).Some? ==> NodeAt(n, p).value.onDone.None?
  {
    if p != [] {
      OneField("i", Inner(), p[0]);
      InnerPaths(p[1..]);
    }
  }

  /** Only `c` has an `onDone`. */
  lemma DeepFinalPaths(m: Machine, p: Path)
    requires m == WithErrorState(DeepFinal()) && p != [] && NodeAt(LiveRoot(m), p).Some?
    ensures NodeAt(LiveRoot(m), p).value.onDone.Some? ==> p == ["c"]
  {
    DeepFinalAccepted(m);
    TwoFields("c", Outer().(onDone := Done), ErrorKey, ErrorNode(), p[0]);
    if p[0] == "c" {
      if p[1..] != [] { OuterPaths(Outer().(onDone := Done), p[1..]); } else { assert p == ["c"]; }
    } else {
      LeafPaths(ErrorNode(), p[1..]);
    }
  }

  lemma RegionPaths(n: Node, p: Path)
    requires n == Plain(Parallel, "", Field("r", Outer(), Empty)).(onDone := Done) && p != []
    ensures NodeAt(n, p).Some? ==> NodeAt(n, p).value.onDone.None?
  {
    OneField("r", Outer(), p[0]);
    OuterPaths(Outer(), p[1..]);
  }

  lemma DeepRegionPaths(m: Machine, p: Path)
    requires m == WithErrorState(DeepRegion()) && p != [] && NodeAt(LiveRoot(m), p).Some?
    ensures NodeAt(LiveRoot(m), p).value.onDone.Some? ==> p == ["p"]
  {
    DeepRegionAccepted(m);
    var n := Plain(Parallel, "", Field("r", Outer(), Empty)).(onDone := Done);
    TwoFields("p", n, ErrorKey, ErrorNode(), p[0]);
    if p[0] == "p" {
      if p[1..] == [] { assert p == ["p"]; } else { RegionPaths(n, p[1..]); }
    } else {
      LeafPaths(ErrorNode(), p[1..]);
    }
  }

  lemma DeepFinalReady(m: Machine)
    requires m == WithErrorState(DeepFinal())
    ensures Ready(m, AtFinal, ["c"]) && !OwnChildFinal(Get(m.states, "c").value, AtFinal.fields.val)
    ensures OnlyLeafFinal(Get(m.states, "c").value, AtFinal.fields.val)
  {
    DeepFinalAccepted(m);
    var c := Outer().(onDone := Done);
    var v := AtFinal.fields.val;
    OuterShape(c);
    assert ["c"][1..] == [];
    assert OneFinalLeaf(Inner(), Leaf("f"));
    assert OneFinalLeaf(c, v);
    assert NodeAt(LiveRoot(m), ["c"]) == Some(c);
    assert ValueAt(AtFinal, ["c"]) == Some(v);
    assert IsActive(LiveRoot(m), AtFinal, ["c"]);
    WellShapedAt(LiveRoot(m), ["c"]);
    OwnChildIs(c, v);
    OneFinalLeafIs(c, v);
  }

  /** Everything that is active is `c`, `i` or the final state. */
  lemma DeepFinalActive(m: Machine, p: Path)
    requires m == WithErrorState(DeepFinal()) && IsActive(LiveRoot(m), AtFinal, p)
    ensures NodeAt(LiveRoot(m), p).Some? && IsLeaf(NodeAt(LiveRoot(m), p).value) ==> NodeAt(LiveRoot(m), p).value.kind == Final
  {
    DeepFinalAccepted(m);
    if p != [] {
      TwoFields("c", Outer().(onDone := Done), ErrorKey, ErrorNode(), p[0]);
      assert p[0] == "c";
      OuterActive(Outer().(onDone := Done), p[1..]);
    }
  }

  lemma OuterActive(n: Node, p: Path)
    requires n == Outer().(onDone := Done) && IsActive(n, Obj(Field("i", Leaf("f"), Empty)), p)
    ensures NodeAt(n, p).Some? && IsLeaf(NodeAt(n, p).value) ==> NodeAt(n, p).value.kind == Final
  {
    if p != [] {
      OneField("i", Inner(), p[0]);
      var q := p[1..];
      assert IsActive(Inner(), Leaf("f"), q) && NodeAt(n, p) == NodeAt(Inner(), q);
      if q != [] {
        OneField("f", Plain(Final, "", Empty), q[0]);
        assert q[1..] == [];
      }
    }
  }

  /** `onDone` of `c` is pending although its own active child is not final, and the transaction is
      COMPLETED although the root's active child is not. */
  lemma DoneBelowTheChild()
    ensures var m := WithErrorState(DeepFinal()); var c := Get(m.states, "c").value;
      && Issues(DeepFinal(), None) == [] && Running(m, AtFinal)
      && FindPendingOnDone(m, AtFinal) == Some(["c"]) && !OwnChildFinal(c, AtFinal.fields.val)
      && ResolveSettledStatus(m, AtFinal, false) == Completed && !RootFinal(m, AtFinal)
  {
    var m := WithErrorState(DeepFinal());
    DeepFinalAccepted(m);
    DeepFinalReady(m);
    PendingIsDeepestComplete(m, AtFinal);
    DeepFinalPaths(m, FindPendingOnDone(m, AtFinal).value);
    forall p | IsActive(LiveRoot(m), AtFinal, p) && NodeAt(LiveRoot(m), p).Some? && IsLeaf(NodeAt(LiveRoot(m), p).value)
      ensures NodeAt(LiveRoot(m), p).value.kind == Final
    {
      DeepFinalActive(m, p);
    }
    SettledStatusMeaning(m, AtFinal, false);
    LiveRootShape(m);
    OwnChildIs(LiveRoot(m), AtFinal);
  }

  /** `onDone` of `p` is not pending although its only region is complete. */
  lemma RegionDoneTooDeep()
    ensures var m := WithErrorState(DeepRegion()); var p := Get(m.states, "p").value; var v := AtDeepFinal.fields.val;
      && Issues(DeepRegion(), None) == [] && Running(m, AtDeepFinal)
      && v.Obj? && AllWhole(p.states, v.fields) && p.onDone.Some? && FindPendingOnDone(m, AtDeepFinal).None?
  {
    var m := WithErrorState(DeepRegion());
    DeepRegionAccepted(m);
    var p := Get(m.states, "p").value;
    var v := AtDeepFinal.fields.val;
    assert Whole(Inner(), Leaf("f"));
    assert Whole(Outer(), Obj(Field("i", Leaf("f"), Empty)));
    assert AllWhole(p.states, v.fields);
    DeepRegionNotReady(m);
    PendingIsDeepestComplete(m, AtDeepFinal);
  }

  lemma DeepRegionNotReady(m: Machine)
    requires m == WithErrorState(DeepRegion())
    ensures forall q :: !Ready(m, AtDeepFinal, q)
  {
    DeepRegionAccepted(m);
    var p := Get(m.states, "p").value;
    forall q ensures !Ready(m, AtDeepFinal, q) {
      if q == ["p"] {
        assert ["p"][1..] == [];
        assert NodeAt(LiveRoot(m), q) == Some(p) && ValueAt(AtDeepFinal, q) == Some(AtDeepFinal.fields.val);
        HasIsKey(p.states, "r");
        assert !RegionDone(Outer(), Obj(Field("i", Leaf("f"), Empty)));
      } else if q != [] && NodeAt(LiveRoot(m), q).Some? {
        DeepRegionPaths(m, q);
      }
    }
  }
}
