/** Small accepted machines, as inputs on which a property fails that one might expect. */
module SmallMachines {
  import opened Records
  import opened Machines
  import opened DotPaths
  import opened Configurations
  import opened Entry
  import opened Leaves
  import opened Transitions
  import opened Validation
  import opened Engine
  import opened Matching
  import opened Calls

  // ---- Accepting a concrete machine, node by node ----

  function Plain(kind: Kind, initial: string, states: Record<Node>): Node {
    Node(kind, initial, [], [], Empty, None, false, states)
  }

  function Acting(target: string): Node {
    Plain(Atomic, "", Empty).(on := Field("GO", Edge(target, "", []), Empty))
  }

  /** A node without references adds no issues of its own. */
  lemma PlainNode(m: Machine, n: Node, at: Path)
    requires n.on.Empty? && ShapeIssues(n, at) == []
    requires n.onDone.Some? ==> n.onDone.value.target == "" && n.onDone.value.onFailTarget == ""
    ensures NodeIssues(m, n, at) == ChildIssues(m, n.states, at)
  {}

  lemma ActingNode(m: Machine, target: string, at: Path)
    requires ResolveTarget(m, Join(at), target).Some?
    ensures NodeIssues(m, Acting(target), at) == []
  {
    var edge := Edge(target, "", []);
    assert EdgeIssues(m, at, edge) == [];
    assert EdgesIssues(m, at, Field("GO", edge, Empty)) == [];
    NoMore(m, at);
  }

  lemma OneMore(m: Machine, k: string, n: Node, rest: Record<Node>, at: Path)
    requires NodeIssues(m, n, at + [k]) == [] && ChildIssues(m, rest, at) == []
    ensures ChildIssues(m, Field(k, n, rest), at) == []
  {}

  lemma NoMore(m: Machine, at: Path)
    ensures ChildIssues(m, Empty, at) == []
  {}

  lemma OneField<V>(k: string, v: V, key: string)
    ensures Get(Field(k, v, Empty), key) == if key == k then Some(v) else None
  {
    assert Get<V>(Empty, key) == None;
  }

  lemma TwoFields<V>(k: string, v: V, l: string, w: V, key: string)
    ensures Get(Field(k, v, Field(l, w, Empty)), key) == if key == k then Some(v) else if key == l then Some(w) else None
  {
    OneField(l, w, key);
  }

  lemma OneKey(k: string)
    requires IsKey(k)
    ensures Segments(k) == [k]
  {
    SegmentsJoin([k]);
  }

  lemma Accepted(raw: Machine)
    requires raw.id == "m" && raw.defaultFailTarget == "" && raw.kind == Compound && Has(raw.states, raw.initial) && raw.initial != ""
    requires ChildIssues(WithErrorState(raw), WithErrorState(raw).states, []) == []
    ensures Issues(raw, None) == []
  {
    GetPut(raw.states, ErrorKey, ErrorNode(), raw.initial);
    assert IsIdChar('m');
  }

  // ---- A broadcast that leaves its parallel state ----

  function RegionR(): Node { Plain(Compound, "x", Field("x", Acting("#done"), Empty)) }

  function RegionQ(): Node { Plain(Compound, "y", Field("y", Acting("z"), Field("z", Plain(Atomic, "", Empty), Empty))) }

  function BothRegions(): Node { Plain(Parallel, "", Field("r", RegionR(), Field("q", RegionQ(), Empty))) }

  /** On GO, region `r` of the parallel state `p` leaves for `done`, and region `q` goes from `y` to
      `z`. */
  function Leaving(): Machine {
    Machine("m", Compound, "p", "", Field("p", BothRegions(), Field("done", Plain(Atomic, "", Empty), Empty)))
  }

  function LeavingStates(): Record<Node> {
    Field("p", BothRegions(), Field("done", Plain(Atomic, "", Empty), Field(ErrorKey, ErrorNode(), Empty)))
  }

  lemma LeavingIs(m: Machine)
    requires m == WithErrorState(Leaving())
    ensures m == Leaving().(states := LeavingStates())
  {
    assert "p" != ErrorKey && "done" != ErrorKey;
  }

  lemma {:induction false} LeavingResolves(m: Machine)
    requires m.states == LeavingStates() && m.id == "m"
    ensures ResolveTarget(m, Join(["p", "r", "x"]), "#done") == Some(["done"])
    ensures ResolveTarget(m, Join(["p", "q", "y"]), "z") == Some(["p", "q", "z"])
  {
    OneKey("done");
    assert "#done"[1..] == "done";
    assert NodeAt(Root(m), ["done"]).Some? by { assert ["done"][1..] == []; }
    PathOfZ(m);
  }

  lemma PathOfZ(m: Machine)
    requires m.states == LeavingStates()
    ensures ResolveTarget(m, Join(["p", "q", "y"]), "z") == Some(["p", "q", "z"])
    ensures GetNodeByPath(m, ["p", "q", "z"]) == Some(Plain(Atomic, "", Empty))
  {
    var s, t := ["p", "q", "y"], ["p", "q", "z"];
    OneKey("z");
    SiblingFirst(m, s, "z");
    assert s[..2] + ["z"] == t;
    assert t[1..] == ["q", "z"] && ["q", "z"][1..] == ["z"] && ["z"][1..] == [];
    assert NodeAt(RegionQ(), ["z"]) == Some(Plain(Atomic, "", Empty));
    assert NodeAt(BothRegions(), ["q", "z"]) == NodeAt(RegionQ(), ["z"]);
  }

  lemma RegionRAccepted(m: Machine, r: Path)
    requires r == ["p", "r"] && ResolveTarget(m, Join(["p", "r", "x"]), "#done").Some?
    ensures NodeIssues(m, RegionR(), r) == []
  {
    assert r + ["x"] == ["p", "r", "x"];
    ActingNode(m, "#done", r + ["x"]);
    NoMore(m, r);
    OneMore(m, "x", Acting("#done"), Empty, r);
    PlainNode(m, RegionR(), r);
  }

  lemma RegionQAccepted(m: Machine, q: Path)
    requires q == ["p", "q"] && ResolveTarget(m, Join(["p", "q", "y"]), "z").Some?
    ensures NodeIssues(m, RegionQ(), q) == []
  {
    assert q + ["y"] == ["p", "q", "y"];
    ActingNode(m, "z", q + ["y"]);
    NoMore(m, q);
    PlainNode(m, Plain(Atomic, "", Empty), q + ["z"]);
    NoMore(m, q + ["z"]);
    OneMore(m, "z", Plain(Atomic, "", Empty), Empty, q);
    OneMore(m, "y", Acting("z"), Field("z", Plain(Atomic, "", Empty), Empty), q);
    PlainNode(m, RegionQ(), q);
  }

  lemma {:induction false} RegionsAccepted(m: Machine)
    requires ResolveTarget(m, Join(["p", "r", "x"]), "#done").Some? && ResolveTarget(m, Join(["p", "q", "y"]), "z").Some?
    ensures NodeIssues(m, BothRegions(), ["p"]) == []
  {
    RegionRAccepted(m, ["p"] + ["r"]);
    RegionQAccepted(m, ["p"] + ["q"]);
    NoMore(m, ["p"]);
    OneMore(m, "q", RegionQ(), Empty, ["p"]);
    OneMore(m, "r", RegionR(), Field("q", RegionQ(), Empty), ["p"]);
    PlainNode(m, BothRegions(), ["p"]);
  }

  /** The leaf states next to the parallel one have no issues. */
  lemma TailIsAccepted(m: Machine)
    ensures ChildIssues(m, Field("done", Plain(Atomic, "", Empty), Field(ErrorKey, ErrorNode(), Empty)), []) == []
  {
    NoMore(m, []);
    PlainNode(m, ErrorNode(), [] + [ErrorKey]);
    NoMore(m, [] + [ErrorKey]);
    OneMore(m, ErrorKey, ErrorNode(), Empty, []);
    PlainNode(m, Plain(Atomic, "", Empty), [] + ["done"]);
    NoMore(m, [] + ["done"]);
    OneMore(m, "done", Plain(Atomic, "", Empty), Field(ErrorKey, ErrorNode(), Empty), []);
  }

  lemma {:induction false} LeavingIsAccepted()
    ensures Issues(Leaving(), None) == []
  {
    var m := WithErrorState(Leaving());
    LeavingIs(m);
    LeavingResolves(m);
    RegionsAccepted(m);
    TailIsAccepted(m);
    assert [] + ["p"] == ["p"];
    OneMore(m, "p", BothRegions(), Field("done", Plain(Atomic, "", Empty), Field(ErrorKey, ErrorNode(), Empty)), []);
    Accepted(Leaving());
  }

  const BothActive: StateValue := Obj(Field("p", Obj(Field("r", Leaf("x"), Field("q", Leaf("y"), Empty))), Empty))

  const OneLeft: StateValue := Obj(Field("p", Obj(Field("q", Leaf("z"), Empty)), Empty))

  lemma LeavingShape(m: Machine)
    requires m == WithErrorState(Leaving())
    ensures ValidTree(m) && LiveRoot(m) == Root(m) && ReadableRegions(LiveRoot(m)) && Wf(LiveRoot(m), BothActive)
    ensures m.states == LeavingStates() && m.id == "m" && m.kind == Compound
  {
    LeavingIs(m);
    LeavingIsAccepted();
    LeavingPlain();
    AcceptedShape(Leaving(), None);
    BothAreWf(Root(m));
    BothRegionsOk();
  }

  lemma LeavingPlain()
    ensures PlainRecords(Leaving().states)
  {
    assert PlainRecords(RegionR().states) && PlainRecords(RegionQ().states);
    assert PlainRecords(BothRegions().states);
  }

  lemma BothAreWf(root: Node)
    requires root.kind == Compound && root.states == LeavingStates()
    ensures Wf(root, BothActive)
  {
    assert Wf(RegionR(), Leaf("x")) && Wf(RegionQ(), Leaf("y"));
    assert WfRegions(Field("q", RegionQ(), Empty), Field("q", Leaf("y"), Empty));
    assert Wf(BothRegions(), BothActive.fields.val);
  }

  lemma BothRegionsOk()
    ensures AllReadable(LeavingStates(), true)
  {
    assert ReadableRegions(RegionR()) && ReadableRegions(RegionQ());
    assert ReadableChild(BothRegions());
  }

  /** Both regions handle GO. */
  lemma {:induction false} LeavingMatches(m: Machine)
    requires m == WithErrorState(Leaving())
    ensures ResolveTransitions(m, BothActive, "GO")
      == [Match(["p", "r", "x"], Edge("#done", "", [])), Match(["p", "q", "y"], Edge("z", "", []))]
  {
    LeavingIs(m);
    var r, q := ["p"] + ["r"], ["p"] + ["q"];
    assert r + ["x"] == ["p", "r", "x"] && q + ["y"] == ["p", "q", "y"];
    assert SearchSubtree(RegionR(), Some(Leaf("x")), "GO", r) == [Match(r + ["x"], Edge("#done", "", []))];
    assert SearchSubtree(RegionQ(), Some(Leaf("y")), "GO", q) == [Match(q + ["y"], Edge("z", "", []))];
    var fields := Field("r", Leaf("x"), Field("q", Leaf("y"), Empty));
    assert SearchRegions(Field("q", RegionQ(), Empty), fields, "GO", ["p"]) == [Match(q + ["y"], Edge("z", "", []))];
    assert SearchRegions(BothRegions().states, fields, "GO", ["p"])
      == [Match(r + ["x"], Edge("#done", "", [])), Match(q + ["y"], Edge("z", "", []))];
  }

  lemma {:induction false} LeavingFirst(m: Machine)
    requires m == WithErrorState(Leaving())
    ensures Moved(m, BothActive, ["p", "r", "x"], "#done") == Some(Leaf("done"))
  {
    LeavingIs(m);
    LeavingResolves(m);
    assert ["done"][1..] == [];
    assert GetNodeByPath(m, ["done"]) == Some(Plain(Atomic, "", Empty));
    assert LcaLen(["p", "r", "x"], ["done"]) == 0;
  }

  lemma {:induction false} PathOfQ(m: Machine)
    requires m.states == LeavingStates()
    ensures GetNodeByPath(m, ["p", "q"]) == Some(RegionQ()) && GetNodeByPath(m, ["p"]) == Some(BothRegions())
  {
    assert ["p"][1..] == [] && ["p", "q"][1..] == ["q"] && ["q"][1..] == [];
    assert NodeAt(BothRegions(), ["q"]) == Some(RegionQ());
  }

  lemma {:induction false} LeavingSecond(m: Machine)
    requires m == WithErrorState(Leaving())
    ensures Moved(m, Leaf("done"), ["p", "q", "y"], "z") == Some(OneLeft)
  {
    LeavingIs(m);
    LeavingResolves(m);
    PathOfZ(m);
    var s, t := ["p", "q", "y"], ["p", "q", "z"];
    assert LcaLen(s, t) == 2 by {
      assert CommonLen(s, t, 2) == 2;
      assert CommonLen(s, t, 1) == 2;
    }
    assert t[..2] == ["p", "q"];
    assert ["p", "q"][..1] == ["p"] && ["p", "q"][..2] == ["p", "q"];
    PathOfQ(m);
    assert BuiltBranch(m, Leaf("done"), t, 2) == Leaf("z");
    assert ReplaceAtLca(m, Leaf(""), ["p", "q"], 1, Leaf("z")) == Obj(Field("q", Leaf("z"), Empty));
  }

  // ---- Final states further down ----

  const Done: Option<Edge> := Some(Edge("", "", []))

  function Inner(): Node { Plain(Compound, "f", Field("f", Plain(Final, "", Empty), Empty)) }

  function Outer(): Node { Plain(Compound, "i", Field("i", Inner(), Empty)) }

  /** A compound state `c` with `onDone`, whose child `i` is compound and holds the final state. */
  function DeepFinal(): Machine {
    Machine("m", Compound, "c", "", Field("c", Outer().(onDone := Done), Empty))
  }

  /** A parallel state `p` with `onDone`, whose region holds a final state two levels down. */
  function DeepRegion(): Machine {
    Machine("m", Compound, "p", "", Field("p", Plain(Parallel, "", Field("r", Outer(), Empty)).(onDone := Done), Empty))
  }

  const AtFinal: StateValue := Obj(Field("c", Obj(Field("i", Leaf("f"), Empty)), Empty))

  const AtDeepFinal: StateValue := Obj(Field("p", Obj(Field("r", Obj(Field("i", Leaf("f"), Empty)), Empty)), Empty))

  lemma OuterAccepted(m: Machine, n: Node, at: Path)
    requires n == Outer() || n == Outer().(onDone := Done)
    ensures NodeIssues(m, n, at) == []
  {
    NoMore(m, at + ["i"] + ["f"]);
    PlainNode(m, Plain(Final, "", Empty), at + ["i"] + ["f"]);
    NoMore(m, at + ["i"]);
    OneMore(m, "f", Plain(Final, "", Empty), Empty, at + ["i"]);
    PlainNode(m, Inner(), at + ["i"]);
    NoMore(m, at);
    OneMore(m, "i", Inner(), Empty, at);
    PlainNode(m, n, at);
  }

  lemma OuterShape(n: Node)
    requires n == Outer() || n == Outer().(onDone := Done)
    ensures PlainRecords(n.states) && ReadableRegions(n) && Wf(n, Obj(Field("i", Leaf("f"), Empty)))
  {
    assert PlainRecords(Inner().states) && ReadableRegions(Inner()) && Wf(Inner(), Leaf("f"));
    assert ReadableChild(Inner());
  }

  lemma OneStateAccepted(raw: Machine, k: string, n: Node)
    requires raw == Machine("m", Compound, k, "", Field(k, n, Empty)) && k != "" && k != ErrorKey && !n.implicitError
    requires NodeIssues(WithErrorState(raw), n, [k]) == [] && PlainRecords(n.states) && ReadableChild(n)
    ensures Issues(raw, None) == []
    ensures var m := WithErrorState(raw);
      ValidTree(m) && LiveRoot(m) == Root(m) && ReadableRegions(LiveRoot(m)) && m.kind == Compound
      && m.states == Field(k, n, Field(ErrorKey, ErrorNode(), Empty))
  {
    var m := WithErrorState(raw);
    OneField(k, n, ErrorKey);
    assert Put(Empty, ErrorKey, ErrorNode()) == Field(ErrorKey, ErrorNode(), Empty);
    assert !Has(raw.states, ErrorKey) && m.states == Field(k, n, Field(ErrorKey, ErrorNode(), Empty));
    NoMore(m, [] + [ErrorKey]);
    PlainNode(m, ErrorNode(), [] + [ErrorKey]);
    NoMore(m, []);
    OneMore(m, ErrorKey, ErrorNode(), Empty, []);
    assert [] + [k] == [k];
    OneMore(m, k, n, Field(ErrorKey, ErrorNode(), Empty), []);
    Accepted(raw);
    assert !Has<Node>(Empty, k) && DistinctKeys<Node>(Empty) && AllPlain(Empty);
    assert DistinctKeys(Field(k, n, Empty)) && AllPlain(Field(k, n, Empty));
    assert PlainRecords(raw.states);
    AcceptedShape(raw, None);
    assert AllReadable(m.states, true);
  }

  lemma DeepFinalAccepted(m: Machine)
    requires m == WithErrorState(DeepFinal())
    ensures Issues(DeepFinal(), None) == [] && Running(m, AtFinal) && ReadableRegions(LiveRoot(m)) && LiveRoot(m) == Root(m)
    ensures m.kind == Compound && m.states == Field("c", Outer().(onDone := Done), Field(ErrorKey, ErrorNode(), Empty))
  {
    var c := Outer().(onDone := Done);
    OuterAccepted(m, c, ["c"]);
    OuterShape(c);
    OneStateAccepted(DeepFinal(), "c", c);
  }

  lemma DeepRegionAccepted(m: Machine)
    requires m == WithErrorState(DeepRegion())
    ensures Issues(DeepRegion(), None) == [] && Running(m, AtDeepFinal) && ReadableRegions(LiveRoot(m)) && LiveRoot(m) == Root(m)
    ensures m.kind == Compound
    ensures m.states == Field("p", Plain(Parallel, "", Field("r", Outer(), Empty)).(onDone := Done), Field(ErrorKey, ErrorNode(), Empty))
  {
    var p := Plain(Parallel, "", Field("r", Outer(), Empty)).(onDone := Done);
    assert ["p"] + ["r"] == ["p", "r"];
    OuterAccepted(m, Outer(), ["p", "r"]);
    OuterShape(Outer());
    NoMore(m, ["p"]);
    OneMore(m, "r", Outer(), Empty, ["p"]);
    PlainNode(m, p, ["p"]);
    assert ReadableChild(p) by { assert AllReadable(p.states, false); }
    OneStateAccepted(DeepRegion(), "p", p);
    assert WfRegions(p.states, Field("r", Obj(Field("i", Leaf("f"), Empty)), Empty));
    assert Wf(p, AtDeepFinal.fields.val);
  }
}
