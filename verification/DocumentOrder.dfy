/** The order in which a definition declares its states, and the lists that follow it: entered nodes,
    active leaves, exited nodes and matched sources (engine/statechart.ts). */
module DocumentOrder {
  import opened Records
  import opened Machines
  import opened PathLists
  import opened Configurations
  import opened Entry
  import opened Leaves
  import opened Engine
  import opened Matching
  import opened Completion

  predicate DeclaredBefore<V>(r: Record<V>, j: string, k: string) {
    match r
    case Empty => false
    case Field(key, _, rest) => if key == j then Has(rest, k) else key != k && DeclaredBefore(rest, j, k)
  }

  /** Where the two paths part, the first one takes the state that is declared earlier. */
  predicate DocBefore(n: Node, p: Path, q: Path)
    decreases |p|
  {
    && p != [] && q != []
    && if p[0] == q[0] then Has(n.states, p[0]) && DocBefore(Get(n.states, p[0]).value, p[1..], q[1..])
       else DeclaredBefore(n.states, p[0], q[0])
  }

  /** Ancestors first, and otherwise as declared. */
  predicate Precedes(n: Node, p: Path, q: Path) {
    p < q || DocBefore(n, p, q)
  }

  ghost predicate InDocOrder(n: Node, ps: seq<Path>) {
    forall i, j :: 0 <= i < j < |ps| ==> Precedes(n, ps[i], ps[j])
  }

  /** None is above another. */
  ghost predicate ApartInDocOrder(n: Node, ps: seq<Path>) {
    forall i, j :: 0 <= i < j < |ps| ==> DocBefore(n, ps[i], ps[j])
  }

  // ---- Lists built child by child ----

  /** The keys of `part` are declared in this order below `n`, too. */
  ghost predicate PartOf(n: Node, part: Record<Node>) {
    forall j, k :: DeclaredBefore(part, j, k) ==> DeclaredBefore(n.states, j, k)
  }

  lemma {:induction false} RestIsPart(n: Node, part: Record<Node>)
    requires part.Field? && DistinctKeys(part) && PartOf(n, part)
    ensures PartOf(n, part.rest)
    ensures forall k :: Has(part.rest, k) ==> DeclaredBefore(n.states, part.key, k)
  {
    forall j, k | DeclaredBefore(part.rest, j, k) ensures DeclaredBefore(n.states, j, k) {
      BothDeclared(part.rest, j, k);
      assert DeclaredBefore(part, j, k);
    }
    forall k | Has(part.rest, k) ensures DeclaredBefore(n.states, part.key, k) {
      assert DeclaredBefore(part, part.key, k);
    }
  }

  lemma {:induction false} BothDeclared<V>(r: Record<V>, j: string, k: string)
    requires DeclaredBefore(r, j, k)
    ensures Has(r, j) && Has(r, k)
  {
    if r.key != j { BothDeclared(r.rest, j, k); }
  }

  lemma UnderInOrder(n: Node, key: string, ps: seq<Path>)
    requires Has(n.states, key)
    ensures InDocOrder(Get(n.states, key).value, ps) ==> InDocOrder(n, Under(key, ps))
    ensures ApartInDocOrder(Get(n.states, key).value, ps) ==> ApartInDocOrder(n, Under(key, ps))
  {
    var c := Get(n.states, key).value;
    var up := Under(key, ps);
    forall i, j | 0 <= i < j < |ps|
      ensures DocBefore(n, up[i], up[j]) <==> DocBefore(c, ps[i], ps[j])
      ensures ps[i] < ps[j] ==> up[i] < up[j]
    {
      assert up[i][1..] == ps[i] && up[j][1..] == ps[j];
    }
    if InDocOrder(c, ps) {
      forall i, j | 0 <= i < j < |ps| ensures Precedes(n, up[i], up[j]) { assert Precedes(c, ps[i], ps[j]); }
    }
  }

  /** The lists of one child and of the later ones. */
  lemma ChildThenRest(n: Node, key: string, ps: seq<Path>, qs: seq<Path>)
    requires forall i :: 0 <= i < |ps| ==> ps[i] != [] && ps[i][0] == key
    requires forall j :: 0 <= j < |qs| ==> qs[j] != [] && qs[j][0] != key && DeclaredBefore(n.states, key, qs[j][0])
    ensures InDocOrder(n, ps) && InDocOrder(n, qs) ==> InDocOrder(n, ps + qs)
    ensures ApartInDocOrder(n, ps) && ApartInDocOrder(n, qs) ==> ApartInDocOrder(n, ps + qs)
  {
    var all := ps + qs;
    forall i, j | 0 <= i < |ps| <= j < |all| ensures DocBefore(n, all[i], all[j]) {
      assert all[i] == ps[i] && all[j] == qs[j - |ps|];
    }
    if InDocOrder(n, ps) && InDocOrder(n, qs) {
      forall i, j | 0 <= i < j < |all| ensures Precedes(n, all[i], all[j]) {
        if j < |ps| { assert Precedes(n, ps[i], ps[j]); } else if i >= |ps| { assert Precedes(n, qs[i - |ps|], qs[j - |ps|]); }
      }
    }
    if ApartInDocOrder(n, ps) && ApartInDocOrder(n, qs) {
      forall i, j | 0 <= i < j < |all| ensures DocBefore(n, all[i], all[j]) {
        if j < |ps| { assert DocBefore(n, ps[i], ps[j]); } else if i >= |ps| { assert DocBefore(n, qs[i - |ps|], qs[j - |ps|]); }
      }
    }
  }

  // ---- Entered nodes ----

  /** Main result: nodes are entered in document order. */
  lemma {:induction false} EnteredInDocOrder(n: Node)
    requires WellShaped(n)
    ensures InDocOrder(n, EnteredPaths(n))
    decreases n, 1
  {
    if n.kind == Compound {
      var c := Child(n, n.initial).value;
      WellShapedChild(n.states, n.initial);
      EnteredInDocOrder(c);
      UnderInOrder(n, n.initial, EnteredPaths(c));
      RootFirst(n, Under(n.initial, EnteredPaths(c)));
    } else if n.kind == Parallel {
      RegionsInDocOrder(n, n.states);
      RootFirst(n, EnteredRegions(n.states));
    }
  }

  lemma RootFirst(n: Node, ps: seq<Path>)
    requires InDocOrder(n, ps) && forall i :: 0 <= i < |ps| ==> ps[i] != []
    ensures InDocOrder(n, [[]] + ps)
  {
    var all := [[]] + ps;
    forall i, j | 0 <= i < j < |all| ensures Precedes(n, all[i], all[j]) {
      assert all[j] == ps[j - 1];
      if i > 0 { assert Precedes(n, ps[i - 1], ps[j - 1]); }
    }
  }

  lemma {:induction false} RegionsInDocOrder(n: Node, regions: Record<Node>)
    requires AllWellShaped(regions) && DistinctKeys(regions) && PartOf(n, regions)
    requires forall k :: Has(regions, k) ==> Get(n.states, k) == Get(regions, k)
    ensures InDocOrder(n, EnteredRegions(regions))
    ensures forall i :: 0 <= i < |EnteredRegions(regions)| ==> EnteredRegions(regions)[i] != [] && Has(regions, EnteredRegions(regions)[i][0])
    decreases regions, 0
  {
    match regions
    case Empty =>
    case Field(k, r, rest) =>
      assert Has(regions, k);
      forall j | Has(rest, j) ensures Get(n.states, j) == Get(rest, j) { assert Has(regions, j); }
      RestIsPart(n, regions);
      EnteredInDocOrder(r);
      UnderInOrder(n, k, EnteredPaths(r));
      RegionsInDocOrder(n, rest);
      ChildThenRest(n, k, Under(k, EnteredPaths(r)), EnteredRegions(rest));
  }

  // ---- Active leaves ----

  /** Main result: the active leaves are listed in document order. */
  lemma {:induction false} LeavesInDocOrder(n: Node, v: StateValue)
    requires WellShaped(n) && Wf(n, v)
    ensures ApartInDocOrder(n, TreeLeaves(n, v))
    decreases v, 1
  {
    if v.Obj? {
      if n.kind == Parallel {
        FieldsInDocOrder(n, n.states, v.fields);
      } else {
        var k := v.fields.key;
        var c := Get(n.states, k).value;
        WellShapedChild(n.states, k);
        LeavesInDocOrder(c, v.fields.val);
        UnderInOrder(n, k, TreeLeaves(c, v.fields.val));
        assert TreeFieldLeaves(n, v.fields.rest) == [];
        assert TreeLeaves(n, v) == Under(k, TreeLeaves(c, v.fields.val)) + [];
      }
    }
  }

  lemma {:induction false} FieldsInDocOrder(n: Node, regions: Record<Node>, fields: Record<StateValue>)
    requires AllWellShaped(regions) && DistinctKeys(regions) && WfRegions(regions, fields) && PartOf(n, regions)
    requires forall k :: Has(regions, k) ==> Get(n.states, k) == Get(regions, k)
    ensures ApartInDocOrder(n, TreeFieldLeaves(n, fields))
    ensures forall i :: 0 <= i < |TreeFieldLeaves(n, fields)| ==> TreeFieldLeaves(n, fields)[i] != [] && Has(regions, TreeFieldLeaves(n, fields)[i][0])
    decreases fields, 0
  {
    match fields
    case Empty =>
    case Field(k, w, rest) =>
      var r := regions.val;
      assert Has(regions, k);
      forall j | Has(regions.rest, j) ensures Get(n.states, j) == Get(regions.rest, j) { assert Has(regions, j); }
      RestIsPart(n, regions);
      FieldsInDocOrder(n, regions.rest, rest);
      if IsLeaf(r) {
        ChildThenRest(n, k, [[k]], TreeFieldLeaves(n, rest));
      } else {
        LeavesInDocOrder(r, w);
        UnderInOrder(n, k, TreeLeaves(r, w));
        ChildThenRest(n, k, Under(k, TreeLeaves(r, w)), TreeFieldLeaves(n, rest));
      }
  }

  // ---- Matched sources ----

  /** The sources of the matches, seen from the node at `at`. */
  function Sources(ms: seq<Match>, at: Path): seq<Path> {
    seq(|ms|, i requires 0 <= i < |ms| => if at <= ms[i].source then ms[i].source[|at|..] else [])
  }

  lemma SourcesUnder(ms: seq<Match>, at: Path, key: string)
    requires forall x :: x in ms ==> at + [key] <= x.source
    ensures Sources(ms, at) == Under(key, Sources(ms, at + [key]))
  {
    forall i | 0 <= i < |ms| ensures at <= ms[i].source && ms[i].source[|at|..] == [key] + ms[i].source[|at| + 1..] {
      assert ms[i] in ms;
      assert ms[i].source[..|at| + 1] == at + [key];
      assert ms[i].source[..|at|] == (at + [key])[..|at|] == at && ms[i].source[|at|] == (at + [key])[|at|];
    }
  }

  lemma SourcesBelow(n: Node, sub: Option<StateValue>, event: string, at: Path)
    requires Matches(n, sub)
    ensures forall x :: x in SearchSubtree(n, sub, event, at) ==> at <= x.source
  {
    forall x | x in SearchSubtree(n, sub, event, at) ensures at <= x.source { SearchExact(n, sub, event, at, x); }
  }

  lemma {:induction false} SearchInDocOrder(n: Node, sub: Option<StateValue>, event: string, at: Path)
    requires Matches(n, sub)
    ensures ApartInDocOrder(n, Sources(SearchSubtree(n, sub, event, at), at))
    decreases n, 1
  {
    var v := ValueOf(sub);
    if n.kind == Compound {
      ActiveChildOfCompound(n, v);
      var k := if v.Leaf? then v.name else v.fields.key;
      var c := Child(n, k).value;
      var subC := if v.Leaf? then None else Some(v.fields.val);
      CompoundSearch(n, v, event, at);
      SearchInDocOrder(c, subC, event, at + [k]);
      SourcesBelow(c, subC, event, at + [k]);
      SourcesUnder(SearchSubtree(c, subC, event, at + [k]), at, k);
      UnderInOrder(n, k, Sources(SearchSubtree(c, subC, event, at + [k]), at + [k]));
    } else if n.kind == Parallel {
      SearchRegionsInDocOrder(n, v, n.states, event, at);
    }
  }

  lemma FoundThenRest(n: Node, key: string, rest: Record<Node>, first: seq<Match>, others: seq<Match>, at: Path)
    requires Has(n.states, key) && !Has(rest, key) && forall x :: x in first ==> at + [key] <= x.source
    requires forall k :: Has(rest, k) ==> DeclaredBefore(n.states, key, k)
    requires ApartInDocOrder(Get(n.states, key).value, Sources(first, at + [key])) && ApartInDocOrder(n, Sources(others, at))
    requires forall i :: 0 <= i < |others| ==> Sources(others, at)[i] != [] && Has(rest, Sources(others, at)[i][0])
    ensures ApartInDocOrder(n, Sources(first + others, at))
    ensures forall i :: 0 <= i < |first + others| ==>
      var p := Sources(first + others, at)[i]; p != [] && (p[0] == key || Has(rest, p[0]))
  {
    SourcesUnder(first, at, key);
    UnderInOrder(n, key, Sources(first, at + [key]));
    assert Sources(first + others, at) == Sources(first, at) + Sources(others, at);
    ChildThenRest(n, key, Sources(first, at), Sources(others, at));
  }

  lemma {:induction false} SearchRegionsInDocOrder(n: Node, v: StateValue, regions: Record<Node>, event: string, at: Path)
    requires WellShaped(n) && n.kind == Parallel && Wf(n, v) && PartOf(n, regions)
    requires DistinctKeys(regions) && forall k :: Has(regions, k) ==> Get(n.states, k) == Get(regions, k)
    ensures var found := Sources(SearchRegions(regions, v.fields, event, at), at);
      ApartInDocOrder(n, found) && forall i :: 0 <= i < |found| ==> found[i] != [] && Has(regions, found[i][0])
    decreases regions, 0
  {
    match regions
    case Empty =>
    case Field(k, c, rest) =>
      assert Has(regions, k);
      ActiveRegion(n, v, k);
      var sub := if IsLeaf(c) then None else Get(v.fields, k);
      var first := SearchSubtree(c, sub, event, at + [k]);
      var others := SearchRegions(rest, v.fields, event, at);
      SearchInDocOrder(c, sub, event, at + [k]);
      SourcesBelow(c, sub, event, at + [k]);
      forall j | Has(rest, j) ensures Get(n.states, j) == Get(rest, j) { assert Has(regions, j); }
      RestIsPart(n, regions);
      SearchRegionsInDocOrder(n, v, rest, event, at);
      FoundThenRest(n, k, rest, first, others, at);
  }

  /** Main result on the order of a broadcast: the matches come in document order. */
  lemma MatchesInDocOrder(m: Machine, v: StateValue, event: string, i: nat, j: nat)
    requires Running(m, v) && i < j < |ResolveTransitions(m, v, event)|
    ensures DocBefore(LiveRoot(m), ResolveTransitions(m, v, event)[i].source, ResolveTransitions(m, v, event)[j].source)
  {
    LiveRootShape(m);
    ResolveIsSearch(m, v, event);
    SearchInDocOrder(LiveRoot(m), Some(v), event, []);
    var sources := Sources(ResolveTransitions(m, v, event), []);
    assert DocBefore(LiveRoot(m), sources[i], sources[j]);
  }

  // ---- Exited nodes ----

  predicate Related(p: Path, q: Path) {
    p <= q || q <= p
  }

  /** One is above the other, or the first is declared earlier. */
  predicate RelatedOrBefore(n: Node, p: Path, q: Path) {
    Related(p, q) || DocBefore(n, p, q)
  }

  ghost predicate KeepsDocOrder(n: Node, ps: seq<Path>) {
    forall i, j :: 0 <= i < j < |ps| ==> RelatedOrBefore(n, ps[i], ps[j])
  }

  lemma {:induction false} BeforeAbove(n: Node, p: Path, q: Path, i: nat, j: nat)
    requires DocBefore(n, p, q) && i <= |p| && j <= |q|
    ensures RelatedOrBefore(n, p[..i], q[..j])
    decreases |p|
  {
    if i > 0 && j > 0 && p[0] == q[0] {
      BeforeAbove(Get(n.states, p[0]).value, p[1..], q[1..], i - 1, j - 1);
      assert p[..i] == [p[0]] + p[1..][..i - 1] && q[..j] == [q[0]] + q[1..][..j - 1];
      assert p[..i][1..] == p[1..][..i - 1] && q[..j][1..] == q[1..][..j - 1];
    }
  }

  /** Everything in the first list is related to everything in the second, or before it. */
  ghost predicate Ahead(n: Node, ps: seq<Path>, qs: seq<Path>) {
    forall p, q :: p in ps && q in qs ==> RelatedOrBefore(n, p, q)
  }

  lemma AheadOfRest(n: Node, ps: seq<Path>, qs: seq<Path>)
    requires Ahead(n, ps, qs) && qs != []
    ensures Ahead(n, ps, qs[1..]) && forall p :: p in ps ==> RelatedOrBefore(n, p, qs[0])
  {
    assert qs[0] in qs;
    forall q | q in qs[1..] ensures q in qs {}
  }

  lemma ApartRest(n: Node, ps: seq<Path>)
    requires ApartInDocOrder(n, ps) && ps != []
    ensures ApartInDocOrder(n, ps[1..]) && forall q :: q in ps[1..] ==> DocBefore(n, ps[0], q)
  {
    forall i, j | 0 <= i < j < |ps[1..]| ensures DocBefore(n, ps[1..][i], ps[1..][j]) {
      assert DocBefore(n, ps[i + 1], ps[j + 1]);
    }
    forall q | q in ps[1..] ensures DocBefore(n, ps[0], q) {
      var j :| 0 <= j < |ps[1..]| && ps[1..][j] == q;
      assert DocBefore(n, ps[0], ps[j + 1]);
    }
  }

  /** What is above a leaf is ahead of the leaves to come. */
  lemma AboveIsAhead(n: Node, leaf: Path, above: seq<Path>, rest: seq<Path>)
    requires forall p :: p in above ==> p <= leaf
    requires forall q :: q in rest ==> DocBefore(n, leaf, q)
    ensures Ahead(n, above, rest)
  {
    forall p, q | p in above && q in rest ensures RelatedOrBefore(n, p, q) {
      BeforeAbove(n, leaf, q, |p|, |q|);
      assert q[..|q|] == q && leaf[..|p|] == p;
    }
  }

  /** One leaf more: its chain comes after everything seen. */
  lemma ChainKeeps(n: Node, seen: seq<Path>, prefix: Path, leaf: Path)
    requires leaf != [] && prefix <= leaf && KeepsDocOrder(n, seen)
    requires forall p :: p in seen && |p| > Top(prefix) ==> p[..|p| - 1] in seen
    requires forall p :: p in seen ==> RelatedOrBefore(n, p, leaf)
    ensures KeepsDocOrder(n, AddNew(seen, Chain(leaf, prefix)))
  {
    var k := AddChainShape(seen, prefix, leaf);
    var chain := Chain(leaf, prefix)[..k];
    forall i | 0 <= i < |chain| ensures chain[i] <= leaf { assert chain[i] == leaf[..|leaf| - i]; }
    forall i, j | 0 <= i < |seen| && 0 <= j < |chain| ensures RelatedOrBefore(n, seen[i], chain[j]) {
      assert seen[i] in seen && chain[j] == leaf[..|chain[j]|];
      RelatedAbove(n, seen[i], leaf, |chain[j]|);
    }
    forall i, j | 0 <= i < j < |chain| ensures RelatedOrBefore(n, chain[i], chain[j]) { PrefixesAreRelated(leaf, chain[i], chain[j]); }
    forall i, j | 0 <= i < j < |seen + chain| ensures RelatedOrBefore(n, (seen + chain)[i], (seen + chain)[j]) {
      if j >= |seen| && i >= |seen| { assert RelatedOrBefore(n, chain[i - |seen|], chain[j - |seen|]); }
    }
  }

  lemma PrefixesAreRelated(leaf: Path, p: Path, q: Path)
    requires p <= leaf && q <= leaf
    ensures Related(p, q)
  {}

  /** What is before a leaf, or related to it, is so to everything above it. */
  lemma {:induction false} RelatedAbove(n: Node, p: Path, leaf: Path, i: nat)
    requires RelatedOrBefore(n, p, leaf) && i <= |leaf|
    ensures RelatedOrBefore(n, p, leaf[..i])
  {
    if DocBefore(n, p, leaf) {
      BeforeAbove(n, p, leaf, |p|, i);
      assert p[..|p|] == p;
    }
  }

  lemma {:induction false} ExitKeeps(n: Node, leaves: seq<Path>, all: seq<Path>, prefix: Path, seen: seq<Path>)
    requires forall i :: 0 <= i < |leaves| ==> leaves[i] != [] && leaves[i] in all
    requires ApartInDocOrder(n, leaves) && Upward(seen, all, prefix) && KeepsDocOrder(n, seen) && Ahead(n, seen, leaves)
    ensures KeepsDocOrder(n, ExitOrder(leaves, prefix, seen))
    decreases |leaves|
  {
    if leaves != [] {
      var leaf := leaves[0];
      assert leaf in all;
      ApartRest(n, leaves);
      AheadOfRest(n, seen, leaves);
      if prefix <= leaf {
        AddChain(seen, all, prefix, leaf);
        ChainKeeps(n, seen, prefix, leaf);
        ChainIsAhead(n, seen, prefix, leaf, leaves[1..]);
      }
      ExitKeeps(n, leaves[1..], all, prefix, if prefix <= leaf then AddNew(seen, Chain(leaf, prefix)) else seen);
    }
  }

  lemma ChainIsAhead(n: Node, seen: seq<Path>, prefix: Path, leaf: Path, rest: seq<Path>)
    requires leaf != [] && prefix <= leaf && Ahead(n, seen, rest) && forall q :: q in rest ==> DocBefore(n, leaf, q)
    ensures Ahead(n, AddNew(seen, Chain(leaf, prefix)), rest)
  {
    var chain := Chain(leaf, prefix);
    forall p | p in chain ensures p <= leaf { ChainAt(leaf, prefix, p); }
    AboveIsAhead(n, leaf, chain, rest);
    forall p, q | p in AddNew(seen, chain) && q in rest ensures RelatedOrBefore(n, p, q) { AddNewMembers(seen, chain, p); }
  }

  /** Main result on exits: among the exited nodes, of two of which none is above the other, the one
      declared earlier is exited first. */
  lemma ExitsInDocOrder(m: Machine, v: StateValue, prefix: Path)
    requires Running(m, v) && ReadableRegions(LiveRoot(m))
    ensures KeepsDocOrder(LiveRoot(m), ExitPaths(m, v, prefix))
  {
    var leaves := ActiveLeafPaths(m, v, []);
    LiveRootShape(m);
    LeavesOf(m, v, []);
    LeavesInDocOrder(LiveRoot(m), v);
    ExitKeeps(LiveRoot(m), leaves, leaves, prefix, []);
  }

  // ---- The pending container ----

  ghost predicate Pairwise(r: (Path, Path) -> bool, ps: seq<Path>) {
    forall i, j :: 0 <= i < j < |ps| ==> r(ps[i], ps[j])
  }

  lemma {:induction false} AddNewKeeps(r: (Path, Path) -> bool, seen: seq<Path>, items: seq<Path>)
    requires Pairwise(r, seen) && Pairwise(r, items)
    requires forall p, q :: p in seen && q in items ==> r(p, q)
    ensures Pairwise(r, AddNew(seen, items))
    decreases |items|
  {
    if items != [] {
      var next := if items[0] in seen then seen else seen + [items[0]];
      forall i, j | 0 <= i < j < |items[1..]| ensures r(items[1..][i], items[1..][j]) {
        assert items[1..][i] == items[i + 1] && items[1..][j] == items[j + 1];
      }
      forall p, q | p in next && q in items[1..] ensures r(p, q) {
        var j :| 0 <= j < |items[1..]| && items[1..][j] == q;
        assert items[j + 1] == q && q in items;
        if p !in seen { assert r(items[0], items[j + 1]); }
      }
      AddNewKeeps(r, next, items[1..]);
    }
  }

  /** The containers of the leaves: of two apart, the earlier one is listed first. */
  lemma {:induction false} ContainersKeep(n: Node, leaves: seq<Path>, seen: seq<Path>)
    requires (forall i :: 0 <= i < |leaves| ==> leaves[i] != []) && ApartInDocOrder(n, leaves) && Ahead(n, seen, leaves)
    requires Pairwise((p, q) => RelatedOrBefore(n, p, q), seen)
    ensures Pairwise((p, q) => RelatedOrBefore(n, p, q), Containers(leaves, seen))
    decreases |leaves|
  {
    if leaves != [] {
      var r := (p, q) => RelatedOrBefore(n, p, q);
      var leaf := leaves[0];
      var above := ProperPrefixes(leaf);
      ApartRest(n, leaves);
      AheadOfRest(n, seen, leaves);
      forall p, q | p in seen && q in above ensures r(p, q) { RelatedAbove(n, p, leaf, |q|); }
      forall i, j | 0 <= i < j < |above| ensures r(above[i], above[j]) { PrefixesAreRelated(leaf, above[i], above[j]); }
      AddNewKeeps(r, seen, above);
      AboveIsAhead(n, leaf, above, leaves[1..]);
      forall p, q | p in AddNew(seen, above) && q in leaves[1..] ensures RelatedOrBefore(n, p, q) { AddNewMembers(seen, above, p); }
      ContainersKeep(n, leaves[1..], AddNew(seen, above));
    }
  }

  lemma {:induction false} OfLengthKeeps(r: (Path, Path) -> bool, ps: seq<Path>, len: nat)
    requires Pairwise(r, ps)
    ensures Pairwise(r, OfLength(ps, len))
  {
    if ps != [] {
      var rest := OfLength(ps[1..], len);
      forall i, j | 0 <= i < j < |ps[1..]| ensures r(ps[1..][i], ps[1..][j]) {
        assert ps[1..][i] == ps[i + 1] && ps[1..][j] == ps[j + 1];
      }
      OfLengthKeeps(r, ps[1..], len);
      forall j | 0 <= j < |rest| ensures r(ps[0], rest[j]) {
        OfLengthAre(ps[1..], len, rest[j]);
        var k :| 0 <= k < |ps[1..]| && ps[1..][k] == rest[j];
        assert r(ps[0], ps[k + 1]);
      }
    }
  }

  /** Among paths of one length, the sort keeps the order. */
  lemma {:induction false} DeepestFirstKeeps(r: (Path, Path) -> bool, ps: seq<Path>, len: nat)
    requires Pairwise(r, ps)
    ensures Pairwise((p, q) => |p| == |q| ==> r(p, q), DeepestFirst(ps, len))
    decreases len
  {
    var same := (p, q) => |p| == |q| ==> r(p, q);
    var first, rest := Deepest(ps, len);
    OfLengthKeeps(r, ps, len);
    if len > 0 { DeepestFirstKeeps(r, ps, len - 1); }
    PairwiseConcat(same, first, rest);
  }

  lemma PairwiseConcat(r: (Path, Path) -> bool, ps: seq<Path>, qs: seq<Path>)
    requires Pairwise(r, ps) && Pairwise(r, qs)
    requires forall i, j :: 0 <= i < |ps| && 0 <= j < |qs| ==> r(ps[i], qs[j])
    ensures Pairwise(r, ps + qs)
  {}

  /** The deepest ones, and the others. */
  lemma Deepest(ps: seq<Path>, len: nat) returns (first: seq<Path>, rest: seq<Path>)
    ensures DeepestFirst(ps, len) == first + rest && first == OfLength(ps, len)
    ensures if len == 0 then rest == [] else rest == DeepestFirst(ps, len - 1)
    ensures forall k :: 0 <= k < |first| ==> |first[k]| == len
    ensures forall k :: 0 <= k < |rest| ==> |rest[k]| < len
  {
    first, rest := OfLength(ps, len), if len == 0 then [] else DeepestFirst(ps, len - 1);
    forall k | 0 <= k < |first| ensures |first[k]| == len { OfLengthAre(ps, len, first[k]); }
    forall k | 0 <= k < |rest| ensures |rest[k]| < len { DeepestFirstAre(ps, len - 1, rest[k]); }
  }

  /** The first candidate that is done comes before every other one of its depth that is. */
  lemma FirstDoneIsFirst(m: Machine, leaves: seq<Path>, containers: seq<Path>, r: (Path, Path) -> bool, p: Path)
    requires Pairwise(r, containers)
    requires var sorted := DeepestFirst(containers, MaxDepth(containers));
      && p in sorted && DoneByScan(m, leaves, p) && FirstDone(m, leaves, sorted).Some?
      && |p| == |FirstDone(m, leaves, sorted).value| && p != FirstDone(m, leaves, sorted).value
    ensures r(FirstDone(m, leaves, DeepestFirst(containers, MaxDepth(containers))).value, p)
  {
    var sorted := DeepestFirst(containers, MaxDepth(containers));
    FirstDoneIs(m, leaves, sorted);
    var i :| 0 <= i < |sorted| && FirstDone(m, leaves, sorted).value == sorted[i] && DoneByScan(m, leaves, sorted[i])
              && forall j :: 0 <= j < i ==> !DoneByScan(m, leaves, sorted[j]);
    var j :| 0 <= j < |sorted| && sorted[j] == p;
    DeepestFirstKeeps(r, containers, MaxDepth(containers));
  }

  /** Main result on the choice: among the deepest complete containers, the first in document order. */
  lemma PendingIsFirst(m: Machine, v: StateValue, p: Path)
    requires Running(m, v) && ReadableRegions(LiveRoot(m)) && FindPendingOnDone(m, v).Some?
    requires Ready(m, v, p) && |p| == |FindPendingOnDone(m, v).value| && p != FindPendingOnDone(m, v).value
    ensures DocBefore(LiveRoot(m), FindPendingOnDone(m, v).value, p)
  {
    var root := LiveRoot(m);
    var leaves := ActiveLeafPaths(m, v, []);
    var containers := Containers(leaves, []);
    LiveRootShape(m);
    LeavesOf(m, v, []);
    LeavesInDocOrder(root, v);
    ContainersKeep(root, leaves, []);
    SortedCandidates(m, v, DeepestFirst(containers, MaxDepth(containers)), p);
    FirstDoneIsFirst(m, leaves, containers, (p, q) => RelatedOrBefore(root, p, q), p);
  }

  // ---- The order is unique ----

  lemma {:induction false} DeclaredOnce<V>(r: Record<V>, j: string, k: string)
    requires DistinctKeys(r) && DeclaredBefore(r, j, k)
    ensures !DeclaredBefore(r, k, j) && j != k
  {
    if r.key == j {
      if DeclaredBefore(r.rest, k, j) { BothDeclared(r.rest, k, j); }
    } else {
      DeclaredOnce(r.rest, j, k);
    }
  }

  lemma {:induction false} OneComesFirst(n: Node, p: Path, q: Path)
    requires WellShaped(n) && DocBefore(n, p, q)
    ensures !DocBefore(n, q, p) && !Related(p, q)
    decreases |p|
  {
    if p[0] == q[0] {
      WellShapedChild(n.states, p[0]);
      OneComesFirst(Get(n.states, p[0]).value, p[1..], q[1..]);
      assert (p <= q <==> p[1..] <= q[1..]) && (q <= p <==> q[1..] <= p[1..]);
    } else {
      DeclaredOnce(n.states, p[0], q[0]);
    }
  }

  /** Main result on the order: a list in document order is determined by its members. */
  lemma {:induction false} DocOrderIsUnique(n: Node, ps: seq<Path>, qs: seq<Path>)
    requires WellShaped(n) && InDocOrder(n, ps) && InDocOrder(n, qs) && forall p :: p in ps <==> p in qs
    ensures ps == qs
    decreases |ps|
  {
    if qs != [] { assert qs[0] in qs && qs[0] in ps; }
    if ps != [] {
      assert ps[0] in ps && ps[0] in qs;
      if ps[0] != qs[0] {
        var i :| 0 <= i < |ps| && ps[i] == qs[0];
        var j :| 0 <= j < |qs| && qs[j] == ps[0];
        assert Precedes(n, ps[0], ps[i]) && Precedes(n, qs[0], qs[j]);
        NeverBoth(n, ps[0], qs[0]);
      }
      forall p ensures p in ps[1..] <==> p in qs[1..] {
        FirstOnce(n, ps, p);
        FirstOnce(n, qs, p);
      }
      DocOrderIsUnique(n, ps[1..], qs[1..]);
    }
  }

  lemma NeverBoth(n: Node, p: Path, q: Path)
    requires WellShaped(n)
    ensures !(Precedes(n, p, q) && Precedes(n, q, p))
  {
    if DocBefore(n, p, q) { OneComesFirst(n, p, q); }
    if DocBefore(n, q, p) { OneComesFirst(n, q, p); }
  }

  lemma FirstOnce(n: Node, ps: seq<Path>, p: Path)
    requires WellShaped(n) && InDocOrder(n, ps) && ps != []
    ensures InDocOrder(n, ps[1..])
    ensures p in ps[1..] <==> p in ps && p != ps[0]
  {
    forall i, j | 0 <= i < j < |ps[1..]| ensures Precedes(n, ps[1..][i], ps[1..][j]) {
      assert Precedes(n, ps[i + 1], ps[j + 1]);
    }
    if p in ps[1..] {
      var i :| 0 <= i < |ps[1..]| && ps[1..][i] == p;
      assert Precedes(n, ps[0], ps[i + 1]);
      NeverBoth(n, p, p);
    }
    if p in ps && p != ps[0] {
      var i :| 0 <= i < |ps| && ps[i] == p;
      assert ps[1..][i - 1] == p;
    }
  }

  /** How a subtree is left: leaves in document order, every other node directly after the first of its
      children. */
  ghost predicate LeavingOrder(n: Node, order: seq<Path>) {
    && NoDup(order) && KeepsDocOrder(n, order)
    && forall i :: 0 <= i < |order| ==> NodeAt(n, order[i]).Some? && (IsLeaf(NodeAt(n, order[i]).value) || AfterFirstChild(order, i))
  }

  ghost predicate AfterFirstChild(order: seq<Path>, i: nat)
    requires i < |order|
  {
    i > 0 && IsParent(order[i], order[i - 1]) && forall e :: 0 <= e < i - 1 ==> !IsParent(order[i], order[e])
  }

  /** Main result on the order of exits: it is determined by its members. */
  lemma LeavingIsUnique(n: Node, ps: seq<Path>, qs: seq<Path>)
    requires WellShaped(n) && LeavingOrder(n, ps) && LeavingOrder(n, qs) && forall p :: p in ps <==> p in qs
    ensures ps == qs
  {
    var k := if |ps| < |qs| then |ps| else |qs|;
    PrefixesAgree(n, ps, qs, k);
    assert ps[..|ps|] == ps && qs[..|qs|] == qs;
    if |ps| < |qs| {
      OneMore(ps, qs);
    } else if |qs| < |ps| {
      OneMore(qs, ps);
    }
  }

  lemma OneMore(ps: seq<Path>, qs: seq<Path>)
    requires NoDup(qs) && |ps| < |qs| && ps == qs[..|ps|]
    ensures qs[|ps|] in qs && qs[|ps|] !in ps
  {
    forall i | 0 <= i < |ps| ensures ps[i] != qs[|ps|] { assert qs[..|ps|][i] == qs[i]; }
  }

  lemma {:induction false} PrefixesAgree(n: Node, ps: seq<Path>, qs: seq<Path>, k: nat)
    requires WellShaped(n) && LeavingOrder(n, ps) && LeavingOrder(n, qs) && forall p :: p in ps <==> p in qs
    requires k <= |ps| && k <= |qs|
    ensures ps[..k] == qs[..k]
  {
    if k > 0 {
      PrefixesAgree(n, ps, qs, k - 1);
      var x, y := ps[k - 1], qs[k - 1];
      assert x in qs && y in ps;
      if x != y {
        var a := LaterIn(ps, qs, k - 1);
        var b := LaterIn(qs, ps, k - 1);
        assert RelatedOrBefore(n, x, y) && RelatedOrBefore(n, y, x);
        if DocBefore(n, x, y) { OneComesFirst(n, x, y); }
        if DocBefore(n, y, x) { OneComesFirst(n, y, x); }
        NotAbove(n, ps, qs, k - 1, a);
        NotAbove(n, qs, ps, k - 1, b);
      }
    }
  }

  lemma LaterIn(ps: seq<Path>, qs: seq<Path>, k: nat) returns (a: nat)
    requires k < |ps| && k <= |qs| && ps[..k] == qs[..k] && NoDup(ps) && ps[k] in qs
    ensures k <= a < |qs| && qs[a] == ps[k]
  {
    forall i | 0 <= i < k ensures qs[i] != ps[k] { SameBefore(ps, qs, k, i); }
    a :| 0 <= a < |qs| && qs[a] == ps[k];
  }

  lemma SameBefore(ps: seq<Path>, qs: seq<Path>, k: nat, i: nat)
    requires i < k <= |ps| && k <= |qs| && ps[..k] == qs[..k]
    ensures ps[i] == qs[i]
  {
    assert ps[..k][i] == qs[..k][i];
  }

  /** What is left at the same moment in one order is not above what is left in the other. */
  lemma NotAbove(n: Node, ps: seq<Path>, qs: seq<Path>, k: nat, a: nat)
    requires WellShaped(n) && LeavingOrder(n, ps) && LeavingOrder(n, qs) && k < |ps| && k <= a < |qs|
    requires ps[..k] == qs[..k] && qs[a] == ps[k]
    ensures !(ps[k] < qs[k])
  {
    if ps[k] < qs[k] {
      ComesAfterChild(n, ps, k, qs[k]);
      SameBefore(ps, qs, k, k - 1);
      ComesAfterChild(n, qs, a, qs[k]);
    }
  }

  lemma ComesAfterChild(n: Node, order: seq<Path>, i: nat, below: Path)
    requires WellShaped(n) && LeavingOrder(n, order) && i < |order| && order[i] < below && NodeAt(n, below).Some?
    ensures AfterFirstChild(order, i)
  {
    NotALeaf(n, order[i], below);
  }

  lemma {:induction false} NotALeaf(n: Node, p: Path, q: Path)
    requires WellShaped(n) && p < q && NodeAt(n, q).Some? && NodeAt(n, p).Some?
    ensures !IsLeaf(NodeAt(n, p).value)
    decreases |p|
  {
    if p != [] {
      WellShapedChild(n.states, p[0]);
      NotALeaf(Get(n.states, p[0]).value, p[1..], q[1..]);
    }
  }
}
