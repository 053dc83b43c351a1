/** The machine definition (definition/ir.ts): a tree of state nodes, and the configuration
    (`StateValue`) that records which of them are active.

    A path is the sequence of keys from the root to a node; module DotPaths relates it to the
    dot-separated strings of the source. A node's key and path are the ones it is stored under. */
module Machines {
  import opened Records

  type Path = seq<string>

  datatype Kind = Atomic | Compound | Parallel | Final

  /** A transition edge. An absent target is the empty string: every use in the source tests
      truthiness. */
  datatype Edge = Edge(target: string, onFailTarget: string, effects: seq<string>)

  datatype Node = Node(
    kind: Kind,
    initial: string,
    entry: seq<string>,
    exit: seq<string>,
    on: Record<Edge>,
    onDone: Option<Edge>,
    implicitError: bool,
    states: Record<Node>)

  datatype Machine = Machine(
    id: string,
    kind: Kind,
    initial: string,
    defaultFailTarget: string,
    states: Record<Node>)

  datatype StateValue = Leaf(name: string) | Obj(fields: Record<StateValue>)

  const ErrorKey: string := "error"

  predicate IsLeaf(n: Node) {
    n.kind == Atomic || n.kind == Final
  }

  lemma ChildIsSmaller(states: Record<Node>, key: string)
    ensures Get(states, key).Some? ==> (states decreases to Get(states, key).value)
  {}

  function Child(n: Node, key: string): (c: Option<Node>)
    ensures c.Some? ==> (n decreases to c.value)
  {
    ChildIsSmaller(n.states, key);
    Get(n.states, key)
  }

  function NodeAt(n: Node, p: Path): Option<Node>
    decreases |p|
  {
    if p == [] then Some(n)
    else match Get(n.states, p[0])
      case None => None
      case Some(c) => NodeAt(c, p[1..])
  }

  /** The root seen as a node: it has no entry or exit effects, no edges and no `onDone`. */
  function Root(m: Machine): Node {
    Node(m.kind, m.initial, [], [], Empty, None, false, m.states)
  }

  /** getNodeByPath: the root itself is not a state. */
  function GetNodeByPath(m: Machine, p: Path): Option<Node> {
    if p == [] then None else NodeAt(Root(m), p)
  }

  lemma {:induction false} NodeAtConcat(n: Node, p: Path, q: Path)
    ensures NodeAt(n, p + q) == if NodeAt(n, p).None? then None else NodeAt(NodeAt(n, p).value, q)
    decreases |p|
  {
    if p == [] {
      assert p + q == q;
    } else {
      assert (p + q)[0] == p[0] && (p + q)[1..] == p[1..] + q;
      var c := Get(n.states, p[0]);
      if c.Some? {
        NodeAtConcat(c.value, p[1..], q);
      }
    }
  }

  /** What the validator guarantees of a node and everything below it, and what JavaScript
      guarantees of its records. */
  ghost predicate WellShaped(n: Node) {
    && DistinctKeys(n.states)
    && (IsLeaf(n) ==> n.states.Empty?)
    && (!IsLeaf(n) ==> n.states.Field?)
    && (n.kind == Compound ==> Has(n.states, n.initial))
    && (n.kind == Final ==> n.on.Empty?)
    && AllWellShaped(n.states)
  }

  ghost predicate AllWellShaped(states: Record<Node>) {
    match states
    case Empty => true
    case Field(_, n, rest) => WellShaped(n) && AllWellShaped(rest)
  }

  lemma {:induction false} WellShapedChild(states: Record<Node>, key: string)
    requires AllWellShaped(states) && Has(states, key)
    ensures WellShaped(Get(states, key).value)
  {
    match states
    case Field(k, _, rest) => if k != key { WellShapedChild(rest, key); }
  }

  lemma {:induction false} WellShapedAt(n: Node, p: Path)
    requires WellShaped(n) && NodeAt(n, p).Some?
    ensures WellShaped(NodeAt(n, p).value)
    decreases |p|
  {
    if p != [] {
      WellShapedChild(n.states, p[0]);
      WellShapedAt(Get(n.states, p[0]).value, p[1..]);
    }
  }

  /** The nodes above an existing one are containers holding the next key of its path. */
  lemma AncestorShape(n: Node, t: Path, i: nat)
    requires WellShaped(n) && NodeAt(n, t).Some? && i <= |t|
    ensures NodeAt(n, t[..i]).Some? && WellShaped(NodeAt(n, t[..i]).value)
    ensures i < |t| ==>
      !IsLeaf(NodeAt(n, t[..i]).value) && Get(NodeAt(n, t[..i]).value.states, t[i]) == NodeAt(n, t[..i + 1])
    ensures i < |t| ==> NodeAt(n, t[..i + 1]).Some?
  {
    assert t == t[..i] + t[i..];
    NodeAtConcat(n, t[..i], t[i..]);
    WellShapedAt(n, t[..i]);
    if i < |t| {
      var a := NodeAt(n, t[..i]).value;
      assert t[..i + 1] == t[..i] + [t[i]] && [t[i]][1..] == [];
      NodeAtConcat(n, t[..i], [t[i]]);
      assert NodeAt(a, t[i..]).Some? && Get(a.states, t[i]).Some?;
    }
  }
}
