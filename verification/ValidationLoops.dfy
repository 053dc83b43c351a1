/** finalizeAndValidateMachineIR as it runs: it collects issues while it walks the tree
    (definition/ir.ts). */
module ValidationLoops {
  import opened Records
  import opened Machines
  import opened DotPaths
  import opened Validation

  /** The loop over `currentMap`. */
  method LookupByDotPath(m: Machine, dotPath: string) returns (found: Option<Path>)
    ensures found == Lookup(m, dotPath)
  {
    var parts := Segments(dotPath);
    if |parts| == 0 { return None; }
    var currentMap := m.states;
    ghost var node := Root(m);
    for i := 0 to |parts|
      invariant node.states == currentMap && NodeAt(Root(m), parts) == NodeAt(node, parts[i..])
    {
      assert parts[i..][0] == parts[i] && parts[i..][1..] == parts[i + 1..];
      var next := Get(currentMap, parts[i]);
      if next.None? { return None; }
      currentMap := next.value.states;
      node := next.value;
    }
    found := Some(parts);
  }

  method ResolveTargetStatePath(m: Machine, source: string, ref: string) returns (t: Option<Path>)
    ensures t == ResolveTarget(m, source, ref)
  {
    if StartsWith(ref, "#") {
      var stripped := ref[1..];
      if StartsWith(stripped, m.id + ".") { stripped := stripped[|m.id| + 1..]; }
      t := LookupByDotPath(m, stripped);
      return;
    }
    var segments := SourceSegments(source);
    var parent := if segments == [] then [] else segments[..|segments| - 1];
    if parent != [] {
      t := LookupByDotPath(m, Join(parent + [ref]));
      if t.Some? { return; }
    }
    t := LookupByDotPath(m, ref);
  }

  lemma Associates<T>(a: seq<T>, b: seq<T>, c: seq<T>)
    ensures a + b + c == a + (b + c)
  {}

  lemma NothingBefore<T>(a: seq<T>)
    ensures [] + a == a
  {}

  class Validator {
    const machine: Machine
    var issues: seq<Issue>

    constructor (m: Machine)
      ensures machine == m && issues == []
    {
      machine, issues := m, [];
    }

    method Require(condition: bool, issue: Issue)
      modifies this
      ensures issues == old(issues) + When(!condition, issue)
    {
      if !condition { issues := issues + [issue]; }
    }

    method ValidateEdge(at: Path, edge: Edge)
      modifies this
      ensures issues == old(issues) + EdgeIssues(machine, at, edge)
    {
      if edge.target != "" {
        var resolved := ResolveTargetStatePath(machine, Join(at), edge.target);
        Require(resolved.Some?, BadTarget(at, edge.target));
      }
      if edge.onFailTarget != "" {
        var fallback := ResolveTargetStatePath(machine, Join(at), edge.onFailTarget);
        Require(fallback.Some?, BadFailTarget(at, edge.onFailTarget));
      }
    }

    method ValidateShape(n: Node, at: Path)
      modifies this
      ensures issues == old(issues) + ShapeIssues(n, at)
    {
      match n.kind
      case Compound =>
        Require(n.states.Field?, MissingChildren(at));
        if n.initial == "" {
          Require(false, MissingInitial(at));
        } else {
          Require(Has(n.states, n.initial), UnknownInitial(at));
        }
      case Parallel =>
        Require(n.states.Field?, MissingChildren(at));
        Require(n.initial == "", UnexpectedInitial(at));
      case Atomic =>
        Require(n.states.Empty?, UnexpectedChildren(at));
        Require(n.initial == "", UnexpectedInitial(at));
      case Final =>
        Require(n.states.Empty?, UnexpectedChildren(at));
        Require(n.initial == "", UnexpectedInitial(at));
        Require(n.on.Empty?, FinalWithEdges(at));
    }

    method ValidateNode(n: Node, at: Path)
      modifies this
      ensures issues == old(issues) + NodeIssues(machine, n, at)
      decreases n, 1
    {
      ValidateShape(n, at);
      ghost var shape := issues[|old(issues)|..];
      ValidateEdges(n.on, at);
      ghost var edges := issues[|old(issues) + shape|..];
      Associates(old(issues), shape, edges);
      ValidateOnDone(n, at);
      ghost var done := issues[|old(issues) + shape + edges|..];
      Associates(old(issues), shape + edges, done);
      ValidateChildren(n.states, at);
      Associates(old(issues), shape + edges + done, ChildIssues(machine, n.states, at));
    }

    method ValidateOnDone(n: Node, at: Path)
      modifies this
      ensures issues == old(issues) + OnDoneIssues(machine, n, at)
    {
      if n.onDone.Some? { ValidateEdge(at, n.onDone.value); }
    }

    method ValidateEdges(on: Record<Edge>, at: Path)
      modifies this
      ensures issues == old(issues) + EdgesIssues(machine, at, on)
    {
      var left := on;
      ghost var found: seq<Issue> := [];
      while left.Field?
        invariant issues == old(issues) + found && found + EdgesIssues(machine, at, left) == EdgesIssues(machine, at, on)
        decreases left
      {
        ghost var here := EdgeIssues(machine, at, left.val);
        ValidateEdge(at, left.val);
        Associates(old(issues), found, here);
        Associates(found, here, EdgesIssues(machine, at, left.rest));
        found := found + here;
        left := left.rest;
      }
    }

    method ValidateChildren(states: Record<Node>, at: Path)
      modifies this
      ensures issues == old(issues) + ChildIssues(machine, states, at)
      decreases states, 0
    {
      var left := states;
      ghost var found: seq<Issue> := [];
      while left.Field?
        invariant issues == old(issues) + found && found + ChildIssues(machine, left, at) == ChildIssues(machine, states, at)
        invariant left == states || (states decreases to left)
        decreases left
      {
        ghost var n := left.val;
        assert states decreases to n;
        ghost var here := NodeIssues(machine, n, at + [left.key]);
        ValidateNode(left.val, at + [left.key]);
        Associates(old(issues), found, here);
        Associates(found, here, ChildIssues(machine, left.rest, at));
        found := found + here;
        left := left.rest;
      }
    }

    method ValidateHeader(raw: Machine, maxEffectChainDepth: Option<int>)
      modifies this
      ensures issues == old(issues) + HeaderIssues(raw, maxEffectChainDepth)
    {
      var idOk := ValidId(raw.id);
      Require(idOk, BadId);
      Require(maxEffectChainDepth.Some? ==> maxEffectChainDepth.value >= 1, BadEffectChainDepth);
    }

    method ValidateRoot(raw: Machine)
      modifies this
      ensures issues == old(issues) + RootIssues(raw, machine)
    {
      Require(raw.states.Field?, NoStates);
      if machine.kind == Compound {
        if machine.initial == "" {
          Require(false, MissingInitial([]));
        } else {
          Require(Has(machine.states, machine.initial), UnknownInitial([]));
        }
      } else {
        Require(machine.kind == Parallel ==> machine.initial == "", UnexpectedInitial([]));
      }
    }

    method ValidateDefault()
      modifies this
      ensures issues == old(issues) + DefaultIssues(machine)
    {
      if machine.defaultFailTarget != "" {
        var fallback := ResolveTargetStatePath(machine, "", machine.defaultFailTarget);
        Require(fallback.Some?, BadFailTarget([], machine.defaultFailTarget));
      }
    }
  }

  method ValidId(id: string) returns (ok: bool)
    ensures ok <==> id != "" && forall i :: 0 <= i < |id| ==> IsIdChar(id[i])
  {
    if id == "" { return false; }
    for i := 0 to |id|
      invariant forall j :: 0 <= j < i ==> IsIdChar(id[j])
    {
      if !IsIdChar(id[i]) { return false; }
    }
    ok := true;
  }

  /** The finished machine, or None with the issues it is refused for. */
  method FinalizeAndValidate(raw: Machine, maxEffectChainDepth: Option<int>) returns (machine: Option<Machine>, issues: seq<Issue>)
    ensures issues == Issues(raw, maxEffectChainDepth)
    ensures machine == if issues == [] then Some(WithErrorState(raw)) else None
  {
    var m := WithErrorState(raw);
    var v := new Validator(m);
    v.ValidateHeader(raw, maxEffectChainDepth);
    NothingBefore(HeaderIssues(raw, maxEffectChainDepth));
    v.ValidateRoot(raw);
    v.ValidateDefault();
    v.ValidateChildren(m.states, []);
    issues := v.issues;
    machine := if issues == [] then Some(m) else None;
  }
}
