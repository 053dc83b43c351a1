/** Target references and the checks that make them safe (definition/ir.ts,
    resolveTargetStatePath and finalizeAndValidateMachineIR). */
module Validation {
  import opened Records
  import opened Machines
  import opened PathLists
  import opened Configurations
  import opened Entry
  import opened DotPaths

  function Lookup(m: Machine, dotPath: string): Option<Path> {
    var p := Segments(dotPath);
    if GetNodeByPath(m, p).Some? then Some(p) else None
  }

  function SourceSegments(source: string): Path {
    if source == "" then [] else Split(source)
  }

  function ResolveTarget(m: Machine, source: string, ref: string): Option<Path> {
    if StartsWith(ref, "#") then
      var stripped := ref[1..];
      if StartsWith(stripped, m.id + ".") then Lookup(m, stripped[|m.id| + 1..]) else Lookup(m, stripped)
    else
      var segments := SourceSegments(source);
      var parent := if segments == [] then [] else segments[..|segments| - 1];
      var sibling := if parent == [] then None else Lookup(m, Join(parent + [ref]));
      if sibling.Some? then sibling else Lookup(m, ref)
  }

  /** Resolving finds existing states only, and prefers the source's own container. */
  lemma ResolvedExists(m: Machine, source: string, ref: string)
    ensures ResolveTarget(m, source, ref).Some? ==>
      var t := ResolveTarget(m, source, ref).value;
      t != [] && IsKeyPath(t) && GetNodeByPath(m, t).Some?
  {
    if ResolveTarget(m, source, ref).Some? {
      var t := ResolveTarget(m, source, ref).value;
      var segments := SourceSegments(source);
      var parent := if segments == [] then [] else segments[..|segments| - 1];
      if StartsWith(ref, "#") {
        var stripped := ref[1..];
        if StartsWith(stripped, m.id + ".") { SegmentsAreKeys(stripped[|m.id| + 1..]); } else { SegmentsAreKeys(stripped); }
      } else if parent != [] && Lookup(m, Join(parent + [ref])).Some? {
        SegmentsAreKeys(Join(parent + [ref]));
      } else {
        SegmentsAreKeys(ref);
      }
    }
  }

  lemma SiblingFirst(m: Machine, s: Path, ref: string)
    requires IsKeyPath(s) && |s| > 1 && !StartsWith(ref, "#")
    ensures ResolveTarget(m, Join(s), ref) ==
      if GetNodeByPath(m, s[..|s| - 1] + Segments(ref)).Some? then Some(s[..|s| - 1] + Segments(ref))
      else Lookup(m, ref)
  {
    SplitJoin(s);
    assert Split(Join(s)) != [""];
    SegmentsBelow(s[..|s| - 1], ref);
  }

  /** A reference found from the root is found from every source, perhaps at a nearer state. */
  lemma RootReferenceResolves(m: Machine, source: string, ref: string)
    requires ResolveTarget(m, "", ref).Some?
    ensures ResolveTarget(m, source, ref).Some?
  {}

  /** An absolute reference names the same state from every source, with or without the machine's id. */
  lemma AbsoluteReference(m: Machine, source: string, p: Path)
    requires IsKeyPath(p) && p != []
    ensures ResolveTarget(m, source, "#" + (m.id + "." + Join(p))) == if GetNodeByPath(m, p).Some? then Some(p) else None
    ensures !StartsWith(Join(p), m.id + ".") ==>
      ResolveTarget(m, source, "#" + Join(p)) == if GetNodeByPath(m, p).Some? then Some(p) else None
  {
    SegmentsJoin(p);
    var long := m.id + "." + Join(p);
    assert ("#" + long)[1..] == long && ("#" + Join(p))[1..] == Join(p);
    assert long[..|m.id| + 1] == m.id + "." && long[|m.id| + 1..] == Join(p);
  }

  // ---- The checks ----

  datatype Issue =
    | BadId
    | BadEffectChainDepth
    | NoStates
    | MissingInitial(at: Path)
    | UnknownInitial(at: Path)
    | UnexpectedInitial(at: Path)
    | MissingChildren(at: Path)
    | UnexpectedChildren(at: Path)
    | FinalWithEdges(at: Path)
    | BadTarget(at: Path, ref: string)
    | BadFailTarget(at: Path, ref: string)

  function When(condition: bool, issue: Issue): seq<Issue> {
    if condition then [issue] else []
  }

  predicate IsIdChar(c: char) {
    'a' <= c <= 'z' || 'A' <= c <= 'Z' || '0' <= c <= '9' || c == '_' || c == '-'
  }

  function ErrorNode(): Node {
    Node(Final, "", [], [], Empty, None, true, Empty)
  }

  /** The definition with the implicit top-level `error` state injected when it has none. */
  function WithErrorState(raw: Machine): Machine {
    if Has(raw.states, ErrorKey) then raw else raw.(states := Put(raw.states, ErrorKey, ErrorNode()))
  }

  function EdgeIssues(m: Machine, at: Path, edge: Edge): seq<Issue> {
    When(edge.target != "" && ResolveTarget(m, Join(at), edge.target).None?, BadTarget(at, edge.target))
    + When(edge.onFailTarget != "" && ResolveTarget(m, Join(at), edge.onFailTarget).None?,
           BadFailTarget(at, edge.onFailTarget))
  }

  function EdgesIssues(m: Machine, at: Path, on: Record<Edge>): seq<Issue> {
    match on
    case Empty => []
    case Field(_, edge, rest) => EdgeIssues(m, at, edge) + EdgesIssues(m, at, rest)
  }

  function ShapeIssues(n: Node, at: Path): seq<Issue> {
    match n.kind
    case Compound =>
      When(n.states.Empty?, MissingChildren(at))
      + (if n.initial == "" then [MissingInitial(at)] else When(!Has(n.states, n.initial), UnknownInitial(at)))
    case Parallel =>
      When(n.states.Empty?, MissingChildren(at)) + When(n.initial != "", UnexpectedInitial(at))
    case Atomic =>
      When(n.states.Field?, UnexpectedChildren(at)) + When(n.initial != "", UnexpectedInitial(at))
    case Final =>
      When(n.states.Field?, UnexpectedChildren(at)) + When(n.initial != "", UnexpectedInitial(at))
      + When(n.on.Field?, FinalWithEdges(at))
  }

  function OnDoneIssues(m: Machine, n: Node, at: Path): seq<Issue> {
    match n.onDone
    case None => []
    case Some(edge) => EdgeIssues(m, at, edge)
  }

  function NodeIssues(m: Machine, n: Node, at: Path): seq<Issue>
    decreases n, 1
  {
    ShapeIssues(n, at)
    + EdgesIssues(m, at, n.on)
    + OnDoneIssues(m, n, at)
    + ChildIssues(m, n.states, at)
  }

  function ChildIssues(m: Machine, states: Record<Node>, at: Path): seq<Issue>
    decreases states, 0
  {
    match states
    case Empty => []
    case Field(k, n, rest) => NodeIssues(m, n, at + [k]) + ChildIssues(m, rest, at)
  }

  function RootIssues(raw: Machine, m: Machine): seq<Issue> {
    When(raw.states.Empty?, NoStates)
    + (if m.kind == Compound then
         (if m.initial == "" then [MissingInitial([])] else When(!Has(m.states, m.initial), UnknownInitial([])))
       else When(m.kind == Parallel && m.initial != "", UnexpectedInitial([])))
  }

  function DefaultIssues(m: Machine): seq<Issue> {
    When(m.defaultFailTarget != "" && ResolveTarget(m, "", m.defaultFailTarget).None?,
         BadFailTarget([], m.defaultFailTarget))
  }

  function HeaderIssues(raw: Machine, maxEffectChainDepth: Option<int>): seq<Issue> {
    When(raw.id == "" || exists i :: 0 <= i < |raw.id| && !IsIdChar(raw.id[i]), BadId)
    + When(maxEffectChainDepth.Some? && maxEffectChainDepth.value < 1, BadEffectChainDepth)
  }

  /** finalizeAndValidateMachineIR: the finished machine, or the issues it is refused for. */
  function Issues(raw: Machine, maxEffectChainDepth: Option<int>): seq<Issue> {
    var m := WithErrorState(raw);
    HeaderIssues(raw, maxEffectChainDepth)
    + RootIssues(raw, m)
    + DefaultIssues(m)
    + ChildIssues(m, m.states, [])
  }

  // ---- What acceptance guarantees ----

  /** JavaScript objects hold each key once, and only the injected node is marked as such. */
  ghost predicate PlainRecords(states: Record<Node>)
    decreases states, 1
  {
    DistinctKeys(states) && AllPlain(states)
  }

  ghost predicate AllPlain(states: Record<Node>)
    decreases states, 0
  {
    match states
    case Empty => true
    case Field(_, n, rest) => !n.implicitError && PlainRecords(n.states) && AllPlain(rest)
  }

  ghost predicate EdgeResolves(m: Machine, at: Path, edge: Edge) {
    && (edge.target != "" ==> ResolveTarget(m, Join(at), edge.target).Some?)
    && (edge.onFailTarget != "" ==> ResolveTarget(m, Join(at), edge.onFailTarget).Some?)
  }

  lemma {:induction false} EdgesChecked(m: Machine, at: Path, on: Record<Edge>, event: string)
    requires EdgesIssues(m, at, on) == [] && Has(on, event)
    ensures EdgeResolves(m, at, Get(on, event).value)
  {
    match on
    case Field(k, edge, rest) => if k != event { EdgesChecked(m, at, rest, event); }
  }

  lemma {:induction false} ShapeChecked(m: Machine, states: Record<Node>, at: Path)
    requires ChildIssues(m, states, at) == [] && PlainRecords(states)
    ensures AllWellShaped(states)
    decreases states
  {
    match states
    case Empty =>
    case Field(k, n, rest) =>
      assert NodeIssues(m, n, at + [k]) == [];
      assert ShapeIssues(n, at + [k]) == [] && ChildIssues(m, n.states, at + [k]) == [];
      ShapeChecked(m, n.states, at + [k]);
      ShapeChecked(m, rest, at);
  }

  lemma {:induction false} ChildChecked(m: Machine, states: Record<Node>, at: Path, key: string)
    requires ChildIssues(m, states, at) == [] && Has(states, key)
    ensures NodeIssues(m, Get(states, key).value, at + [key]) == []
  {
    match states
    case Field(k, n, rest) => if k != key { ChildChecked(m, rest, at, key); }
  }

  lemma NodeParts(m: Machine, n: Node, at: Path)
    requires NodeIssues(m, n, at) == []
    ensures ShapeIssues(n, at) == [] && EdgesIssues(m, at, n.on) == [] && ChildIssues(m, n.states, at) == []
    ensures n.onDone.Some? ==> EdgeIssues(m, at, n.onDone.value) == []
  {}

  lemma {:induction false} NodeChecked(m: Machine, states: Record<Node>, at: Path, key: string, p: Path)
    requires ChildIssues(m, states, at) == [] && Has(states, key)
    requires NodeAt(Get(states, key).value, p).Some?
    ensures NodeIssues(m, NodeAt(Get(states, key).value, p).value, at + [key] + p) == []
    decreases |p|
  {
    ChildChecked(m, states, at, key);
    var c := Get(states, key).value;
    if p == [] {
      assert at + [key] + p == at + [key];
    } else {
      NodeParts(m, c, at + [key]);
      NodeChecked(m, c.states, at + [key], p[0], p[1..]);
      assert at + [key] + [p[0]] + p[1..] == at + [key] + p;
    }
  }

  /** Main result: in an accepted machine the tree is sound and every reference that can be used
      resolves from where it is used: edge targets and `onFail` targets from their source, the
      machine's default `onFail` target and the built-in `error` from any state. */
  lemma AcceptedMachineIsSound(raw: Machine, maxEffectChainDepth: Option<int>, p: Path)
    requires raw.kind == Compound || raw.kind == Parallel
    requires PlainRecords(raw.states) && Issues(raw, maxEffectChainDepth) == []
    ensures ValidTree(WithErrorState(raw))
    ensures GetNodeByPath(WithErrorState(raw), p).Some? ==>
      var n := GetNodeByPath(WithErrorState(raw), p).value;
      && (forall event :: Has(n.on, event) ==> EdgeResolves(WithErrorState(raw), p, Get(n.on, event).value))
      && (n.onDone.Some? ==> EdgeResolves(WithErrorState(raw), p, n.onDone.value))
    ensures forall source: string ::
      && ResolveTarget(WithErrorState(raw), source, ErrorKey).Some?
      && (raw.defaultFailTarget != "" ==> ResolveTarget(WithErrorState(raw), source, raw.defaultFailTarget).Some?)
  {
    var m := WithErrorState(raw);
    AcceptedShape(raw, maxEffectChainDepth);
    if GetNodeByPath(m, p).Some? { NodeIsOk(m, p); }
    ErrorResolves(raw);
    forall source: string ensures
      && ResolveTarget(m, source, ErrorKey).Some?
      && (raw.defaultFailTarget != "" ==> ResolveTarget(m, source, raw.defaultFailTarget).Some?)
    {
      RootReferenceResolves(m, source, ErrorKey);
      if raw.defaultFailTarget != "" { RootReferenceResolves(m, source, raw.defaultFailTarget); }
    }
  }

  lemma ErrorResolves(raw: Machine)
    ensures ResolveTarget(WithErrorState(raw), "", ErrorKey) == Some([ErrorKey])
  {
    var m := WithErrorState(raw);
    SplitKey(ErrorKey);
    assert Segments(ErrorKey) == [ErrorKey];
    if !Has(raw.states, ErrorKey) { GetPut(raw.states, ErrorKey, ErrorNode(), ErrorKey); }
    assert [ErrorKey][1..] == [];
  }

  lemma AcceptedShape(raw: Machine, maxEffectChainDepth: Option<int>)
    requires raw.kind == Compound || raw.kind == Parallel
    requires PlainRecords(raw.states) && Issues(raw, maxEffectChainDepth) == []
    ensures ValidTree(WithErrorState(raw)) && ChildIssues(WithErrorState(raw), WithErrorState(raw).states, []) == []
    ensures Issues(raw, maxEffectChainDepth) == [] && raw.defaultFailTarget != "" ==>
      ResolveTarget(WithErrorState(raw), "", raw.defaultFailTarget).Some?
  {
    var m := WithErrorState(raw);
    assert RootIssues(raw, m) == [] && ChildIssues(m, m.states, []) == [];
    assert raw.states.Field?;
    if !Has(raw.states, ErrorKey) {
      PlainWithError(raw.states);
      AppendedIssues(m, raw.states, []);
    } else {
      SkipsNothing(raw.states);
    }
    ShapeChecked(m, raw.states, []);
    if !Has(raw.states, ErrorKey) { ShapedWithError(raw.states); }
  }

  lemma {:induction false} SkipsNothing(states: Record<Node>)
    requires AllPlain(states)
    ensures SkipImplicitError(states) == states
  {
    match states
    case Empty =>
    case Field(_, _, rest) => SkipsNothing(rest);
  }

  lemma {:induction false} PlainWithError(states: Record<Node>)
    requires PlainRecords(states) && !Has(states, ErrorKey)
    ensures SkipImplicitError(Put(states, ErrorKey, ErrorNode())) == states
    ensures DistinctKeys(Put(states, ErrorKey, ErrorNode()))
  {
    match states
    case Empty =>
    case Field(k, _, rest) =>
      PlainWithError(rest);
      GetPut(rest, ErrorKey, ErrorNode(), k);
  }

  lemma {:induction false} ShapedWithError(states: Record<Node>)
    requires AllWellShaped(states) && !Has(states, ErrorKey)
    ensures AllWellShaped(Put(states, ErrorKey, ErrorNode()))
  {
    match states
    case Empty =>
    case Field(_, _, rest) => ShapedWithError(rest);
  }

  lemma {:induction false} AppendedIssues(m: Machine, states: Record<Node>, at: Path)
    requires !Has(states, ErrorKey) && ChildIssues(m, Put(states, ErrorKey, ErrorNode()), at) == []
    ensures ChildIssues(m, states, at) == []
  {
    match states
    case Empty =>
    case Field(_, _, rest) => AppendedIssues(m, rest, at);
  }

  /** Every accepted definition has an initial configuration. It is well formed, its active nodes are those
      reached by initial children and live regions, and its effects are their entry lists, parents first. */
  lemma AcceptedInitialState(raw: Machine, maxEffectChainDepth: Option<int>) returns (order: seq<Path>)
    requires raw.kind == Compound || raw.kind == Parallel
    requires PlainRecords(raw.states) && Issues(raw, maxEffectChainDepth) == []
    ensures ResolveInitialState(WithErrorState(raw)).Some?
    ensures var root := LiveRoot(WithErrorState(raw)); var (v, effects) := ResolveInitialState(WithErrorState(raw)).value;
      && Wf(root, v)
      && (forall p :: IsActive(root, v, p) <==> FollowsInitial(root, p))
      && effects == Collect(root, order, (n: Node) => n.entry)
    ensures NoDup(order) && ParentsFirst([[]] + order)
    ensures forall p :: p in order <==> p != [] && FollowsInitial(LiveRoot(WithErrorState(raw)), p)
  {
    AcceptedShape(raw, maxEffectChainDepth);
    order := InitialFollows(WithErrorState(raw));
  }

  // ---- Exactly which definitions are accepted ----

  /** What each kind of state may and must declare. */
  predicate ShapeOk(n: Node) {
    match n.kind
    case Compound => n.states.Field? && n.initial != "" && Has(n.states, n.initial)
    case Parallel => n.states.Field? && n.initial == ""
    case Atomic => n.states.Empty? && n.initial == ""
    case Final => n.states.Empty? && n.initial == "" && n.on.Empty?
  }

  ghost predicate NodeOk(m: Machine, p: Path, n: Node) {
    && ShapeOk(n)
    && (forall event :: Has(n.on, event) ==> EdgeResolves(m, p, Get(n.on, event).value))
    && (n.onDone.Some? ==> EdgeResolves(m, p, n.onDone.value))
  }

  ghost predicate Acceptable(raw: Machine, maxEffectChainDepth: Option<int>) {
    var m := WithErrorState(raw);
    && raw.id != "" && (forall i :: 0 <= i < |raw.id| ==> IsIdChar(raw.id[i]))
    && (maxEffectChainDepth.Some? ==> maxEffectChainDepth.value >= 1)
    && raw.states.Field?
    && (raw.kind == Compound ==> raw.initial != "" && Has(m.states, raw.initial))
    && (raw.kind == Parallel ==> raw.initial == "")
    && (raw.defaultFailTarget != "" ==> ResolveTarget(m, "", raw.defaultFailTarget).Some?)
    && (forall p :: GetNodeByPath(m, p).Some? ==> NodeOk(m, p, GetNodeByPath(m, p).value))
  }

  /** Each key once, at every level. */
  ghost predicate DistinctTree(states: Record<Node>)
    decreases states, 1
  {
    DistinctKeys(states) && AllDistinct(states)
  }

  ghost predicate AllDistinct(states: Record<Node>)
    decreases states, 0
  {
    match states
    case Empty => true
    case Field(_, n, rest) => DistinctTree(n.states) && DistinctKeys(n.on) && AllDistinct(rest)
  }

  lemma {:induction false} EdgesFine(m: Machine, at: Path, on: Record<Edge>)
    requires DistinctKeys(on) && forall event :: Has(on, event) ==> EdgeResolves(m, at, Get(on, event).value)
    ensures EdgesIssues(m, at, on) == []
  {
    match on
    case Empty =>
    case Field(k, edge, rest) =>
      assert Has(on, k) && Get(on, k) == Some(edge);
      forall event | Has(rest, event) ensures EdgeResolves(m, at, Get(rest, event).value) { assert Has(on, event) && event != k; }
      EdgesFine(m, at, rest);
  }

  lemma {:induction false} NodeFine(m: Machine, n: Node, at: Path)
    requires DistinctTree(n.states) && DistinctKeys(n.on)
    requires forall p :: NodeAt(n, p).Some? ==> NodeOk(m, at + p, NodeAt(n, p).value)
    ensures NodeIssues(m, n, at) == []
    decreases n, 1
  {
    assert at + [] == at && NodeAt(n, []) == Some(n);
    assert NodeOk(m, at + [], n);
    EdgesFine(m, at, n.on);
    forall k, p | Has(n.states, k) && NodeAt(Get(n.states, k).value, p).Some?
      ensures NodeOk(m, at + [k] + p, NodeAt(Get(n.states, k).value, p).value)
    {
      assert ([k] + p)[1..] == p && at + [k] + p == at + ([k] + p);
      assert NodeAt(n, [k] + p).Some?;
    }
    ChildrenFine(m, n.states, at);
  }

  lemma {:induction false} ChildrenFine(m: Machine, states: Record<Node>, at: Path)
    requires DistinctTree(states)
    requires forall k, p :: Has(states, k) && NodeAt(Get(states, k).value, p).Some? ==> NodeOk(m, at + [k] + p, NodeAt(Get(states, k).value, p).value)
    ensures ChildIssues(m, states, at) == []
    decreases states, 0
  {
    match states
    case Empty =>
    case Field(k, n, rest) =>
      assert Has(states, k) && Get(states, k) == Some(n);
      NodeFine(m, n, at + [k]);
      forall j, p | Has(rest, j) && NodeAt(Get(rest, j).value, p).Some?
        ensures NodeOk(m, at + [j] + p, NodeAt(Get(rest, j).value, p).value)
      {
        assert Has(states, j) && j != k && Get(states, j) == Get(rest, j);
      }
      ChildrenFine(m, rest, at);
  }

  /** The converse of AcceptedMachineIsSound for one node: no issue means that the node is as it should be. */
  lemma NodeIsOk(m: Machine, p: Path)
    requires ChildIssues(m, m.states, []) == [] && GetNodeByPath(m, p).Some?
    ensures NodeOk(m, p, GetNodeByPath(m, p).value)
  {
    NodeHasNoIssue(m, p);
    NoIssueIsOk(m, GetNodeByPath(m, p).value, p);
  }

  lemma NodeHasNoIssue(m: Machine, p: Path)
    requires ChildIssues(m, m.states, []) == [] && GetNodeByPath(m, p).Some?
    ensures NodeIssues(m, GetNodeByPath(m, p).value, p) == []
  {
    FromTheRoot(p);
    NodeChecked(m, m.states, [], p[0], p[1..]);
  }

  lemma FromTheRoot(p: Path)
    requires p != []
    ensures [] + [p[0]] + p[1..] == p
  {}

  lemma NoIssueIsOk(m: Machine, n: Node, p: Path)
    requires NodeIssues(m, n, p) == []
    ensures NodeOk(m, p, n)
  {
    NodeParts(m, n, p);
    forall event | Has(n.on, event) ensures EdgeResolves(m, p, Get(n.on, event).value) {
      EdgesChecked(m, p, n.on, event);
    }
  }

  lemma {:induction false} ErrorKeepsDistinct(states: Record<Node>)
    requires DistinctTree(states) && !Has(states, ErrorKey)
    ensures DistinctTree(Put(states, ErrorKey, ErrorNode()))
  {
    match states
    case Empty =>
    case Field(k, _, rest) =>
      ErrorKeepsDistinct(rest);
      GetPut(rest, ErrorKey, ErrorNode(), k);
  }

  /** Main result on validation: a definition is accepted exactly when it is acceptable. */
  lemma AcceptedIff(raw: Machine, maxEffectChainDepth: Option<int>)
    requires DistinctTree(raw.states)
    ensures Issues(raw, maxEffectChainDepth) == [] <==> Acceptable(raw, maxEffectChainDepth)
  {
    var m := WithErrorState(raw);
    if !Has(raw.states, ErrorKey) { ErrorKeepsDistinct(raw.states); }
    if ChildIssues(m, m.states, []) == [] {
      forall p | GetNodeByPath(m, p).Some? ensures NodeOk(m, p, GetNodeByPath(m, p).value) { NodeIsOk(m, p); }
    }
    if forall p :: GetNodeByPath(m, p).Some? ==> NodeOk(m, p, GetNodeByPath(m, p).value) {
      forall k, p | Has(m.states, k) && NodeAt(Get(m.states, k).value, p).Some?
        ensures NodeOk(m, [] + [k] + p, NodeAt(Get(m.states, k).value, p).value)
      {
        assert ([k] + p)[1..] == p && [] + [k] + p == [k] + p;
        assert GetNodeByPath(m, [k] + p).Some?;
      }
      ChildrenFine(m, m.states, []);
    }
    AcceptedBy(raw, maxEffectChainDepth);
  }

  lemma AcceptedBy(raw: Machine, maxEffectChainDepth: Option<int>)
    ensures Issues(raw, maxEffectChainDepth) == [] <==>
      && HeaderIssues(raw, maxEffectChainDepth) == [] && RootIssues(raw, WithErrorState(raw)) == []
      && DefaultIssues(WithErrorState(raw)) == [] && ChildIssues(WithErrorState(raw), WithErrorState(raw).states, []) == []
  {}
}
