/** Event matching (engine/statechart.ts, resolveTransitionsForEvent and getAvailableEvents). */
module Matching {
  import opened Records
  import opened Machines
  import opened PathLists
  import opened Configurations
  import opened Entry
  import opened Leaves
  import opened Engine

  datatype Match = Match(source: Path, edge: Edge)

  function OwnMatch(n: Node, event: string, at: Path): seq<Match> {
    match Get(n.on, event)
    case None => []
    case Some(edge) => [Match(at, edge)]
  }

  function SearchSubtree(n: Node, sub: Option<StateValue>, event: string, at: Path): seq<Match>
    decreases n, 2
  {
    match n.kind
    case Compound =>
      var inner := match sub
        case None => []
        case Some(Leaf(k)) => SearchChild(n, k, None, event, at)
        case Some(Obj(fields)) => SearchEntries(n, fields, event, at);
      if inner != [] then inner else OwnMatch(n, event, at)
    case Parallel =>
      var fields := if sub.Some? && sub.value.Obj? then sub.value.fields else Empty;
      var regions := SearchRegions(n.states, fields, event, at);
      if regions != [] then regions else OwnMatch(n, event, at)
    case _ => OwnMatch(n, event, at)
  }

  function SearchChild(n: Node, key: string, sub: Option<StateValue>, event: string, at: Path): seq<Match>
    decreases n, 0
  {
    match Child(n, key)
    case None => []
    case Some(c) => SearchSubtree(c, sub, event, at + [key])
  }

  /** The first entry with matches. */
  function SearchEntries(n: Node, fields: Record<StateValue>, event: string, at: Path): seq<Match>
    decreases n, 1, fields
  {
    match fields
    case Empty => []
    case Field(k, w, rest) =>
      var found := SearchChild(n, k, Some(w), event, at);
      if found != [] then found else SearchEntries(n, rest, event, at)
  }

  /** All regions, in declaration order. */
  function SearchRegions(regions: Record<Node>, fields: Record<StateValue>, event: string, at: Path): seq<Match>
    decreases regions
  {
    match regions
    case Empty => []
    case Field(k, region, rest) =>
      SearchSubtree(region, if IsLeaf(region) then None else Get(fields, k), event, at + [k])
      + SearchRegions(rest, fields, event, at)
  }

  function ResolveTransitions(m: Machine, v: StateValue, event: string): seq<Match> {
    match v
    case Leaf(k) => (match Get(m.states, k) case None => [] case Some(n) => SearchSubtree(n, None, event, [k]))
    case Obj(fields) => SearchTop(m, fields, event)
  }

  function SearchTop(m: Machine, fields: Record<StateValue>, event: string): seq<Match> {
    match fields
    case Empty => []
    case Field(k, w, rest) =>
      (match Get(m.states, k)
       case None => []
       case Some(n) => SearchSubtree(n, if IsLeaf(n) then None else Some(w), event, [k]))
      + SearchTop(m, rest, event)
  }

  // ---- What is matched ----

  predicate Handles(n: Node, p: Path, event: string) {
    NodeAt(n, p).Some? && Has(NodeAt(n, p).value.on, event)
  }

  /** `p` is active, handles the event, and nothing active below it does. */
  ghost predicate Innermost(n: Node, v: StateValue, event: string, p: Path) {
    && IsActive(n, v, p) && Handles(n, p, event)
    && forall q :: p < q && IsActive(n, v, q) ==> !Handles(n, q, event)
  }

  /** Nothing active below `n` handles the event. */
  ghost predicate Silent(n: Node, v: StateValue, event: string) {
    forall q :: IsActive(n, v, q) && q != [] ==> !Handles(n, q, event)
  }

  /** A leaf has no value of its own; any value stands for it. */
  function ValueOf(sub: Option<StateValue>): StateValue {
    if sub.Some? then sub.value else Leaf("")
  }

  ghost predicate Matches(n: Node, sub: Option<StateValue>) {
    WellShaped(n) && if IsLeaf(n) then true else sub.Some? && Wf(n, sub.value)
  }

  ghost predicate IsMatch(n: Node, v: StateValue, event: string, at: Path, x: Match) {
    && at <= x.source && Innermost(n, v, event, x.source[|at|..])
    && Get(NodeAt(n, x.source[|at|..]).value.on, event) == Some(x.edge)
  }

  /** The child of `n` under `key` holds `w`; the rest of its activity is elsewhere. */
  lemma ChildActivity(n: Node, v: StateValue, key: string, w: StateValue, q: Path)
    requires Has(n.states, key) && q != [] && q[0] == key
    requires forall r :: IsActive(n, v, [key] + r) <==> IsActive(Get(n.states, key).value, w, r)
    ensures IsActive(n, v, q) <==> IsActive(Get(n.states, key).value, w, q[1..])
    ensures NodeAt(n, q) == NodeAt(Get(n.states, key).value, q[1..])
  {
    assert q == [key] + q[1..];
  }

  lemma InnermostChild(n: Node, v: StateValue, key: string, w: StateValue, event: string, p: Path)
    requires Has(n.states, key) && p != [] && p[0] == key
    requires forall r :: IsActive(n, v, [key] + r) <==> IsActive(Get(n.states, key).value, w, r)
    ensures Innermost(n, v, event, p) <==> Innermost(Get(n.states, key).value, w, event, p[1..])
  {
    var c := Get(n.states, key).value;
    ChildActivity(n, v, key, w, p);
    if Innermost(n, v, event, p) {
      forall q | p[1..] < q && IsActive(c, w, q) ensures !Handles(c, q, event) {
        assert p < [key] + q && ([key] + q)[1..] == q;
        ChildActivity(n, v, key, w, [key] + q);
      }
    }
    if Innermost(c, w, event, p[1..]) {
      forall q | p < q && IsActive(n, v, q) ensures !Handles(n, q, event) {
        ChildActivity(n, v, key, w, q);
        assert p[1..] < q[1..];
      }
    }
  }

  lemma ActiveChildOfCompound(n: Node, v: StateValue)
    requires WellShaped(n) && n.kind == Compound && Wf(n, v)
    ensures var k := if v.Leaf? then v.name else v.fields.key;
      var w := if v.Leaf? then Leaf("") else v.fields.val;
      && Has(n.states, k) && Matches(Get(n.states, k).value, if v.Leaf? then None else Some(w))
      && (forall r :: IsActive(n, v, [k] + r) <==> IsActive(Get(n.states, k).value, w, r))
      && (forall q :: IsActive(n, v, q) && q != [] ==> q[0] == k)
  {
    var k := if v.Leaf? then v.name else v.fields.key;
    var w := if v.Leaf? then Leaf("") else v.fields.val;
    WellShapedChild(n.states, k);
    forall r ensures IsActive(n, v, [k] + r) <==> IsActive(Get(n.states, k).value, w, r) {
      assert ([k] + r)[1..] == r;
    }
  }

  lemma ActiveRegion(n: Node, v: StateValue, k: string)
    requires WellShaped(n) && n.kind == Parallel && Wf(n, v) && Has(n.states, k)
    ensures var c := Get(n.states, k).value;
      && Has(v.fields, k) && Matches(c, if IsLeaf(c) then None else Some(Get(v.fields, k).value))
      && (forall r :: IsActive(n, v, [k] + r) <==>
            IsActive(c, if IsLeaf(c) then Leaf("") else Get(v.fields, k).value, r))
  {
    var c := Get(n.states, k).value;
    WellShapedChild(n.states, k);
    RegionOf(n.states, v.fields, k);
    forall r ensures IsActive(n, v, [k] + r) <==> IsActive(c, if IsLeaf(c) then Leaf("") else Get(v.fields, k).value, r) {
      assert ([k] + r)[1..] == r;
    }
  }

  /** A compound node searches its active child, then itself. */
  lemma CompoundSearch(n: Node, v: StateValue, event: string, at: Path)
    requires WellShaped(n) && n.kind == Compound && Wf(n, v)
    ensures var k := if v.Leaf? then v.name else v.fields.key;
      Has(n.states, k) &&
      var inner := SearchSubtree(Get(n.states, k).value, if v.Leaf? then None else Some(v.fields.val), event, at + [k]);
      SearchSubtree(n, Some(v), event, at) == if inner != [] then inner else OwnMatch(n, event, at)
  {
    if v.Obj? {
      assert v.fields == Field(v.fields.key, v.fields.val, Empty);
      assert SearchEntries(n, v.fields.rest, event, at) == [];
      var found := SearchChild(n, v.fields.key, Some(v.fields.val), event, at);
      assert SearchEntries(n, v.fields, event, at) == found;
    }
  }

  /** Nothing is found exactly when nothing active handles the event. */
  lemma {:induction false} SearchFindsSome(n: Node, sub: Option<StateValue>, event: string, at: Path)
    requires Matches(n, sub)
    ensures SearchSubtree(n, sub, event, at) == [] <==> Silent(n, ValueOf(sub), event) && !Handles(n, [], event)
    decreases n, 1
  {
    var v := ValueOf(sub);
    if n.kind == Compound {
      ActiveChildOfCompound(n, v);
      var k := if v.Leaf? then v.name else v.fields.key;
      var w := if v.Leaf? then Leaf("") else v.fields.val;
      var c := Child(n, k).value;
      SearchFindsSome(c, if v.Leaf? then None else Some(w), event, at + [k]);
      SilentChild(n, v, k, w, event);
      CompoundSearch(n, v, event, at);
    } else if n.kind == Parallel {
      forall k | Has(n.states, k) ensures Has(v.fields, k) { ActiveRegion(n, v, k); }
      SearchRegionsFindSome(n, v, n.states, event, at);
    }
  }

  lemma SilentChild(n: Node, v: StateValue, k: string, w: StateValue, event: string)
    requires Has(n.states, k)
    requires forall r :: IsActive(n, v, [k] + r) <==> IsActive(Get(n.states, k).value, w, r)
    requires forall q :: IsActive(n, v, q) && q != [] ==> q[0] == k
    ensures Silent(n, v, event) <==>
      Silent(Get(n.states, k).value, w, event) && !Handles(Get(n.states, k).value, [], event)
  {
    SilentRegion(n, v, k, w, event);
  }

  lemma SilentRegion(n: Node, v: StateValue, k: string, w: StateValue, event: string)
    requires Has(n.states, k)
    requires forall r :: IsActive(n, v, [k] + r) <==> IsActive(Get(n.states, k).value, w, r)
    ensures (forall q :: q != [] && q[0] == k && IsActive(n, v, q) ==> !Handles(n, q, event)) <==>
      Silent(Get(n.states, k).value, w, event) && !Handles(Get(n.states, k).value, [], event)
  {
    var c := Get(n.states, k).value;
    if forall q :: q != [] && q[0] == k && IsActive(n, v, q) ==> !Handles(n, q, event) {
      forall r | IsActive(c, w, r) ensures !Handles(c, r, event) {
        assert ([k] + r)[1..] == r;
        assert !Handles(n, [k] + r, event);
      }
      assert IsActive(c, w, []);
    }
    if Silent(c, w, event) && !Handles(c, [], event) {
      forall q | q != [] && q[0] == k && IsActive(n, v, q) ensures !Handles(n, q, event) {
        ChildActivity(n, v, k, w, q);
      }
    }
  }

  lemma {:induction false} SearchRegionsFindSome(n: Node, v: StateValue, regions: Record<Node>, event: string, at: Path)
    requires WellShaped(n) && n.kind == Parallel && Wf(n, v)
    requires DistinctKeys(regions) && forall k :: Has(regions, k) ==> Get(n.states, k) == Get(regions, k)
    ensures SearchRegions(regions, v.fields, event, at) == [] <==>
      forall q :: q != [] && Has(regions, q[0]) && IsActive(n, v, q) ==> !Handles(n, q, event)
    decreases regions, 0
  {
    match regions
    case Empty =>
    case Field(k, c, rest) =>
      assert Has(regions, k);
      ActiveRegion(n, v, k);
      var w := if IsLeaf(c) then Leaf("") else Get(v.fields, k).value;
      SearchFindsSome(c, if IsLeaf(c) then None else Get(v.fields, k), event, at + [k]);
      SilentRegion(n, v, k, w, event);
      forall j | Has(rest, j) ensures Get(n.states, j) == Get(rest, j) { assert Has(regions, j); }
      SearchRegionsFindSome(n, v, rest, event, at);
  }

  /** Exactly the innermost active handlers are found. */
  lemma {:induction false} SearchExact(n: Node, sub: Option<StateValue>, event: string, at: Path, x: Match)
    requires Matches(n, sub)
    ensures x in SearchSubtree(n, sub, event, at) <==> IsMatch(n, ValueOf(sub), event, at, x)
    decreases n, 1
  {
    var v := ValueOf(sub);
    SearchFindsSome(n, sub, event, at);
    if n.kind == Compound {
      ActiveChildOfCompound(n, v);
      var k := if v.Leaf? then v.name else v.fields.key;
      var w := if v.Leaf? then Leaf("") else v.fields.val;
      var c := Child(n, k).value;
      var subC := if v.Leaf? then None else Some(w);
      CompoundSearch(n, v, event, at);
      SearchFindsSome(c, subC, event, at + [k]);
      SilentChild(n, v, k, w, event);
      SearchExact(c, subC, event, at + [k], x);
      MatchBelow(n, v, k, w, event, at, x);
      OwnMatchExact(n, v, event, at, x);
      if IsMatch(n, v, event, at, x) && |x.source| > |at| { MatchKey(n, v, event, at, x); }
    } else if n.kind == Parallel {
      SearchRegionsFindSome(n, v, n.states, event, at);
      SearchRegionsExact(n, v, n.states, event, at, x);
      OwnMatchExact(n, v, event, at, x);
    } else {
      OwnMatchExact(n, v, event, at, x);
    }
  }

  lemma OwnMatchExact(n: Node, v: StateValue, event: string, at: Path, x: Match)
    ensures Silent(n, v, event) ==> (x in OwnMatch(n, event, at) <==> IsMatch(n, v, event, at, x))
    ensures !Silent(n, v, event) && IsMatch(n, v, event, at, x) ==> |x.source| > |at|
  {
    if IsMatch(n, v, event, at, x) {
      var p := x.source[|at|..];
      if Silent(n, v, event) { assert p == [] && x.source == at; }
      if p == [] {
        forall q | q != [] && IsActive(n, v, q) ensures !Handles(n, q, event) { assert p < q; }
      }
    }
    if x == Match(at, x.edge) { assert x.source[|at|..] == []; }
  }

  lemma MatchKey(n: Node, v: StateValue, event: string, at: Path, x: Match)
    requires IsMatch(n, v, event, at, x) && |x.source| > |at|
    ensures IsActive(n, v, x.source[|at|..]) && x.source[|at|..][0] == x.source[|at|]
  {}

  lemma MatchBelow(n: Node, v: StateValue, k: string, w: StateValue, event: string, at: Path, x: Match)
    requires Has(n.states, k)
    requires forall r :: IsActive(n, v, [k] + r) <==> IsActive(Get(n.states, k).value, w, r)
    ensures IsMatch(Get(n.states, k).value, w, event, at + [k], x)
       <==> IsMatch(n, v, event, at, x) && |x.source| > |at| && x.source[|at|] == k
  {
    if at <= x.source && |x.source| > |at| && x.source[|at|] == k {
      var p := x.source[|at|..];
      assert at + [k] <= x.source && x.source[|at + [k]|..] == p[1..];
      InnermostChild(n, v, k, w, event, p);
      ChildActivity(n, v, k, w, p);
    }
    if at + [k] <= x.source {
      assert x.source[|at|] == (at + [k])[|at|] == k;
      assert x.source[..|at|] == at;
    }
  }

  lemma {:induction false} SearchRegionsExact(n: Node, v: StateValue, regions: Record<Node>, event: string, at: Path, x: Match)
    requires WellShaped(n) && n.kind == Parallel && Wf(n, v)
    requires DistinctKeys(regions) && forall k :: Has(regions, k) ==> Get(n.states, k) == Get(regions, k)
    ensures x in SearchRegions(regions, v.fields, event, at)
       <==> IsMatch(n, v, event, at, x) && |x.source| > |at| && Has(regions, x.source[|at|])
    decreases regions, 0
  {
    match regions
    case Empty =>
    case Field(k, c, rest) =>
      assert Has(regions, k);
      ActiveRegion(n, v, k);
      var w := if IsLeaf(c) then Leaf("") else Get(v.fields, k).value;
      SearchExact(c, if IsLeaf(c) then None else Get(v.fields, k), event, at + [k], x);
      MatchBelow(n, v, k, w, event, at, x);
      forall j | Has(rest, j) ensures Get(n.states, j) == Get(rest, j) { assert Has(regions, j); }
      SearchRegionsExact(n, v, rest, event, at, x);
  }

  // ---- No source is matched twice ----

  predicate DistinctSources(ms: seq<Match>) {
    forall i, j :: 0 <= i < j < |ms| ==> ms[i].source != ms[j].source
  }

  lemma {:induction false} SearchDistinct(n: Node, sub: Option<StateValue>, event: string, at: Path)
    requires Matches(n, sub)
    ensures DistinctSources(SearchSubtree(n, sub, event, at))
    decreases n, 1
  {
    var v := ValueOf(sub);
    if n.kind == Compound {
      ActiveChildOfCompound(n, v);
      var k := if v.Leaf? then v.name else v.fields.key;
      var c := Child(n, k).value;
      SearchDistinct(c, if v.Leaf? then None else Some(v.fields.val), event, at + [k]);
      CompoundSearch(n, v, event, at);
    } else if n.kind == Parallel {
      SearchRegionsDistinct(n, v, n.states, event, at);
    }
  }

  lemma {:induction false} SearchRegionsDistinct(n: Node, v: StateValue, regions: Record<Node>, event: string, at: Path)
    requires WellShaped(n) && n.kind == Parallel && Wf(n, v)
    requires DistinctKeys(regions) && forall k :: Has(regions, k) ==> Get(n.states, k) == Get(regions, k)
    ensures DistinctSources(SearchRegions(regions, v.fields, event, at))
    decreases regions, 0
  {
    match regions
    case Empty =>
    case Field(k, c, rest) =>
      assert Has(regions, k);
      ActiveRegion(n, v, k);
      var sub := if IsLeaf(c) then None else Get(v.fields, k);
      var w := if IsLeaf(c) then Leaf("") else Get(v.fields, k).value;
      var first := SearchSubtree(c, sub, event, at + [k]);
      var others := SearchRegions(rest, v.fields, event, at);
      SearchDistinct(c, sub, event, at + [k]);
      forall j | Has(rest, j) ensures Get(n.states, j) == Get(rest, j) { assert Has(regions, j); }
      SearchRegionsDistinct(n, v, rest, event, at);
      forall i, j | 0 <= i < |first| && 0 <= j < |others| ensures first[i].source != others[j].source {
        SearchExact(c, sub, event, at + [k], first[i]);
        MatchBelow(n, v, k, w, event, at, first[i]);
        SearchRegionsExact(n, v, rest, event, at, others[j]);
      }
  }

  /** The search from the top is the search of the live root, which handles nothing itself. */
  lemma ResolveIsSearch(m: Machine, v: StateValue, event: string)
    requires Running(m, v)
    ensures ResolveTransitions(m, v, event) == SearchSubtree(LiveRoot(m), Some(v), event, [])
  {
    var root := LiveRoot(m);
    LiveRootShape(m);
    if m.kind == Compound {
      CompoundSearch(root, v, event, []);
      ActiveChildOfCompound(root, v);
      var k := if v.Leaf? then v.name else v.fields.key;
      assert [] + [k] == [k];
      if v.Obj? {
        assert v.fields == Field(k, v.fields.val, Empty);
        assert SearchTop(m, v.fields.rest, event) == [];
      }
    } else {
      forall k | Has(root.states, k) ensures Get(m.states, k) == Get(root.states, k) { SkipKeeps(m.states, k); }
      TopIsRegions(m, v.fields, root.states, v.fields, event);
    }
  }

  lemma {:induction false} TopIsRegions(m: Machine, all: Record<StateValue>, regions: Record<Node>, fields: Record<StateValue>, event: string)
    requires WfRegions(regions, fields) && DistinctKeys(regions)
    requires forall k :: Has(regions, k) ==> Get(m.states, k) == Get(regions, k) && Get(all, k) == Get(fields, k)
    requires ValidTree(m)
    ensures SearchTop(m, fields, event) == SearchRegions(regions, all, event, [])
    decreases fields
  {
    match fields
    case Empty =>
    case Field(k, w, rest) =>
      assert Has(regions, k);
      assert [] + [k] == [k];
      forall j | Has(regions.rest, j)
        ensures Get(m.states, j) == Get(regions.rest, j) && Get(all, j) == Get(rest, j)
      {
        assert Has(regions, j) && j != k;
      }
      TopIsRegions(m, all, regions.rest, rest, event);
  }

  /** Main result on matching: the matches of an event are exactly its innermost active handlers,
      each once. So every match is active and handles the event, no active descendant of one does,
      and no match is an ancestor of another. */
  lemma MatchesAreInnermost(m: Machine, v: StateValue, event: string, x: Match)
    requires Running(m, v)
    ensures x in ResolveTransitions(m, v, event) <==>
      && Innermost(LiveRoot(m), v, event, x.source)
      && Get(NodeAt(LiveRoot(m), x.source).value.on, event) == Some(x.edge)
    ensures x in ResolveTransitions(m, v, event) ==> x.source != [] && GetNodeByPath(m, x.source).Some?
    ensures DistinctSources(ResolveTransitions(m, v, event))
  {
    LiveRootShape(m);
    ResolveIsSearch(m, v, event);
    SearchExact(LiveRoot(m), Some(v), event, [], x);
    SearchDistinct(LiveRoot(m), Some(v), event, []);
    assert x.source[0..] == x.source;
    if x in ResolveTransitions(m, v, event) {
      LiveLookup(m, x.source);
    }
  }

  lemma NoMatchAboveAnother(m: Machine, v: StateValue, event: string, x: Match, y: Match)
    requires Running(m, v)
    requires x in ResolveTransitions(m, v, event) && y in ResolveTransitions(m, v, event)
    ensures !(x.source < y.source)
  {
    MatchesAreInnermost(m, v, event, x);
    MatchesAreInnermost(m, v, event, y);
  }

  // ---- Available events ----

  function ChainEvents(m: Machine, leaf: Path, len: nat, events: seq<string>): seq<string>
    requires len <= |leaf|
    decreases len
  {
    if len == 0 then events
    else
      var node := GetNodeByPath(m, leaf[..len]);
      ChainEvents(m, leaf, len - 1,
                  if node.None? || node.value.kind == Final then events else AddNew(events, Keys(node.value.on)))
  }

  function LeafEvents(m: Machine, leaves: seq<Path>, events: seq<string>): seq<string>
    decreases |leaves|
  {
    if leaves == [] then events
    else LeafEvents(m, leaves[1..], ChainEvents(m, leaves[0], |leaves[0]|, events))
  }

  function AvailableEvents(m: Machine, v: StateValue): seq<string> {
    LeafEvents(m, ActiveLeafPaths(m, v, []), [])
  }

  predicate Accepts(m: Machine, p: Path, event: string) {
    var node := GetNodeByPath(m, p);
    node.Some? && node.value.kind != Final && Has(node.value.on, event)
  }

  lemma {:induction false} ChainEventsAre(m: Machine, leaf: Path, len: nat, events: seq<string>, event: string)
    requires len <= |leaf|
    ensures event in ChainEvents(m, leaf, len, events) <==>
      event in events || exists p :: p <= leaf && 0 < |p| <= len && Accepts(m, p, event)
    decreases len
  {
    if len > 0 {
      var node := GetNodeByPath(m, leaf[..len]);
      var next := if node.None? || node.value.kind == Final then events else AddNew(events, Keys(node.value.on));
      ChainEventsAre(m, leaf, len - 1, next, event);
      if node.Some? {
        AddNewMembers(events, Keys(node.value.on), event);
        HasIsKey(node.value.on, event);
      }
      assert leaf[..len] <= leaf;
      assert forall p :: p <= leaf && |p| == len ==> p == leaf[..len];
    }
  }

  lemma {:induction false} LeafEventsAre(m: Machine, leaves: seq<Path>, events: seq<string>, event: string)
    ensures event in LeafEvents(m, leaves, events) <==>
      event in events || exists p :: p != [] && LeadsToLeaf(leaves, p) && Accepts(m, p, event)
    decreases |leaves|
  {
    if leaves != [] {
      ChainEventsAre(m, leaves[0], |leaves[0]|, events, event);
      LeafEventsAre(m, leaves[1..], ChainEvents(m, leaves[0], |leaves[0]|, events), event);
      forall p ensures LeadsToLeaf(leaves, p) <==> p <= leaves[0] || LeadsToLeaf(leaves[1..], p) { LeadsFirst(leaves, p); }
    }
  }

  /** Main result: an event is available exactly when some active state handles it, and exactly
      then it has a match. */
  lemma AvailableIffMatched(m: Machine, v: StateValue, event: string)
    requires Running(m, v) && ReadableRegions(LiveRoot(m))
    ensures event in AvailableEvents(m, v) <==> exists p :: IsActive(LiveRoot(m), v, p) && Handles(LiveRoot(m), p, event)
    ensures event in AvailableEvents(m, v) <==> ResolveTransitions(m, v, event) != []
  {
    var root := LiveRoot(m);
    LiveRootShape(m);
    LeafEventsAre(m, ActiveLeafPaths(m, v, []), [], event);
    forall p | p != []
      ensures LeadsToLeaf(ActiveLeafPaths(m, v, []), p) && Accepts(m, p, event)
         <==> IsActive(root, v, p) && Handles(root, p, event)
    {
      LeavesOf(m, v, p);
      LiveLookup(m, p);
      if IsActive(root, v, p) {
        ActiveNode(root, v, p);
        WellShapedAt(root, p);
      }
    }
    assert !Handles(root, [], event);
    ResolveIsSearch(m, v, event);
    SearchFindsSome(root, Some(v), event, []);
  }
}
