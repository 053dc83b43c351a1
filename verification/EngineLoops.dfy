/** The loops of engine/statechart.ts, proved against the functions of the other modules. */
module EngineLoops {
  import opened Records
  import opened Machines
  import opened PathLists
  import opened DotPaths
  import opened Entry
  import opened Leaves
  import opened Transitions
  import opened Validation
  import opened Engine
  import opened Matching
  import opened Completion

  method FindNode(m: Machine, p: Path) returns (current: Option<Node>)
    ensures current == GetNodeByPath(m, p)
  {
    current := None;
    var states := m.states;
    ghost var node := Root(m);
    for i := 0 to |p|
      invariant node.states == states && NodeAt(Root(m), p) == NodeAt(node, p[i..])
      invariant i == 0 ==> current == None
      invariant i > 0 ==> current == Some(node)
    {
      assert p[i..][0] == p[i] && p[i..][1..] == p[i + 1..];
      current := Get(states, p[i]);
      if current.None? { return; }
      states := current.value.states;
      node := current.value;
    }
  }

  method GetActiveLeafPaths(m: Machine, v: StateValue, parent: Path) returns (leaves: seq<Path>)
    ensures leaves == ActiveLeafPaths(m, v, parent)
    decreases v, 1
  {
    if v.Leaf? { return [parent + [v.name]]; }
    leaves := [];
    var entries := v.fields;
    while entries.Field?
      invariant leaves + EntryLeaves(m, entries, parent) == EntryLeaves(m, v.fields, parent)
      invariant v decreases to entries
      decreases entries
    {
      var currentPath := parent + [entries.key];
      var node := FindNode(m, currentPath);
      var inner;
      if node.Some? && node.value.kind == Parallel && entries.val.Obj? {
        inner := GetRegionLeaves(m, entries.val.fields, currentPath);
      } else {
        inner := GetActiveLeafPaths(m, entries.val, currentPath);
      }
      assert EntryLeaves(m, entries, parent) == inner + EntryLeaves(m, entries.rest, parent);
      leaves := leaves + inner;
      entries := entries.rest;
    }
  }

  /** The inner loop over the regions of a parallel state. */
  method GetRegionLeaves(m: Machine, fields: Record<StateValue>, parent: Path) returns (leaves: seq<Path>)
    ensures leaves == RegionLeaves(m, fields, parent)
    decreases fields, 0
  {
    leaves := [];
    var regions := fields;
    while regions.Field?
      invariant leaves + RegionLeaves(m, regions, parent) == RegionLeaves(m, fields, parent)
      invariant regions == fields || (fields decreases to regions)
      decreases regions
    {
      RegionSplit(m, leaves, fields, regions, parent);
      var inner := GetOneRegionLeaves(m, regions.key, regions.val, parent);
      leaves := leaves + inner;
      regions := regions.rest;
    }
  }

  lemma RegionSplit(m: Machine, leaves: seq<Path>, fields: Record<StateValue>, regions: Record<StateValue>, parent: Path)
    requires regions.Field? && (regions == fields || (fields decreases to regions))
    ensures fields decreases to regions.val
    ensures fields decreases to regions.rest
    ensures leaves + RegionLeaves(m, regions, parent)
      == leaves + OneRegionLeaves(m, regions.key, regions.val, parent) + RegionLeaves(m, regions.rest, parent)
  {}

  method GetOneRegionLeaves(m: Machine, key: string, w: StateValue, parent: Path) returns (leaves: seq<Path>)
    ensures leaves == OneRegionLeaves(m, key, w, parent)
    decreases w, 2
  {
    var regionPath := parent + [key];
    var region := FindNode(m, regionPath);
    if region.Some? && IsLeaf(region.value) {
      leaves := [regionPath];
    } else if w.Leaf? {
      leaves := [regionPath + [w.name]];
    } else {
      leaves := GetActiveLeafPaths(m, w, regionPath);
    }
  }

  /** Exits `leaf` and its ancestors up to `prefix` that were not exited before. */
  method ExitChain(m: Machine, leaf: Path, prefix: Path, seen: seq<Path>, before: seq<string>)
    returns (visited: seq<Path>, exitEffects: seq<string>)
    requires leaf != [] && prefix <= leaf && before == Collect(Root(m), seen, ExitList)
    ensures visited == AddNew(seen, Chain(leaf, prefix))
    ensures exitEffects == Collect(Root(m), visited, ExitList)
  {
    visited, exitEffects := seen, before;
    ghost var chain := Chain(leaf, prefix);
    var len := |leaf|;
    while len >= 1 && prefix <= leaf[..len]
      invariant Top(prefix) - 1 <= len <= |leaf|
      invariant AddNew(visited, chain[|leaf| - len..]) == AddNew(seen, chain)
      invariant exitEffects == Collect(Root(m), visited, ExitList)
      decreases len
    {
      var candidate := leaf[..len];
      assert chain[|leaf| - len..][0] == candidate;
      assert chain[|leaf| - len..][1..] == chain[|leaf| - (len - 1)..];
      if candidate !in visited {
        var effects := ExitNode(m, visited, candidate, exitEffects);
        visited, exitEffects := visited + [candidate], effects;
      }
      len := len - 1;
    }
    assert chain[|leaf| - len..] == [];
  }

  method ExitNode(m: Machine, visited: seq<Path>, p: Path, before: seq<string>) returns (effects: seq<string>)
    requires p != [] && before == Collect(Root(m), visited, ExitList)
    ensures effects == Collect(Root(m), visited + [p], ExitList)
  {
    CollectAppend(Root(m), visited, [p], ExitList);
    var node := FindNode(m, p);
    effects := before;
    if node.Some? { effects := effects + node.value.exit; }
    assert Collect(Root(m), [p], ExitList) == if node.Some? then node.value.exit else [];
  }

  method CollectBottomUpExitEffects(m: Machine, v: StateValue, prefix: Path) returns (exitEffects: seq<string>)
    ensures exitEffects == Collect(Root(m), ExitPaths(m, v, prefix), ExitList)
  {
    var leaves := GetActiveLeafPaths(m, v, []);
    var visited: seq<Path> := [];
    exitEffects := [];
    for i := 0 to |leaves|
      invariant ExitOrder(leaves[i..], prefix, visited) == ExitOrder(leaves, prefix, [])
      invariant exitEffects == Collect(Root(m), visited, ExitList)
    {
      assert leaves[i..][0] == leaves[i] && leaves[i..][1..] == leaves[i + 1..];
      if prefix <= leaves[i] {
        visited, exitEffects := ExitChain(m, leaves[i], prefix, visited, exitEffects);
      }
    }
  }

  method ExtractSubStateObject(v: StateValue, p: Path) returns (fields: Record<StateValue>)
    ensures fields == SubObject(v, p)
  {
    var cursor := v;
    for i := 0 to |p|
      invariant SubObject(v, p) == SubObject(cursor, p[i..])
    {
      assert p[i..][0] == p[i] && p[i..][1..] == p[i + 1..];
      if !(cursor.Obj? && Has(cursor.fields, p[i])) { return Empty; }
      cursor := Get(cursor.fields, p[i]).value;
    }
    assert p[|p|..] == [];
    fields := if cursor.Obj? then cursor.fields else Empty;
  }

  method CommonLength(s: Path, t: Path) returns (commonLen: nat)
    requires s != [] && t != []
    ensures commonLen == LcaLen(s, t)
  {
    commonLen := 0;
    var maxCommon := (if |s| <= |t| then |s| else |t|) - 1;
    while commonLen < maxCommon && s[commonLen] == t[commonLen]
      invariant commonLen <= maxCommon && s[..commonLen] == t[..commonLen]
      invariant CommonLen(s, t, commonLen) == LcaLen(s, t)
    {
      commonLen := commonLen + 1;
    }
  }

  /** The entry effects of the ancestors between the common one and the target. */
  method EnterAncestors(m: Machine, t: Path, c: nat) returns (entries: seq<string>)
    requires c < |t|
    ensures entries == Collect(Root(m), AncestorPaths(t, c), EntryList)
  {
    entries := [];
    ghost var all := AncestorPaths(t, c);
    for i := c to |t| - 1
      invariant entries == Collect(Root(m), all[..i - c], EntryList)
    {
      assert all[..i + 1 - c] == all[..i - c] + [t[..i + 1]];
      CollectAppend(Root(m), all[..i - c], [t[..i + 1]], EntryList);
      var ancestor := FindNode(m, t[..i + 1]);
      assert Collect(Root(m), [t[..i + 1]], EntryList) == if ancestor.Some? then ancestor.value.entry else [];
      if ancestor.Some? { entries := entries + ancestor.value.entry; }
    }
    assert all[..|t| - 1 - c] == all;
  }

  /** The nested value from the target up to just below the common ancestor. */
  method BuildBranch(m: Machine, cur: StateValue, t: Path, c: nat) returns (built: StateValue)
    requires c < |t| && GetNodeByPath(m, t).Some?
    ensures built == BuiltBranch(m, cur, t, c)
  {
    var node := FindNode(m, t);
    built := Branch(t[|t| - 1], EnterSubtree(node.value).sub);
    var i := |t| - 1;
    while i > c
      invariant c <= i <= |t| - 1 && built == BuiltBranch(m, cur, t, i)
    {
      i := i - 1;
      var ancestor := FindNode(m, t[..i + 1]);
      if ancestor.Some? && ancestor.value.kind == Parallel {
        var existing := ExtractSubStateObject(cur, t[..i + 1]);
        built := Obj(Field(t[i], Obj(Put(existing, t[i + 1], RegionValue(built, t[i + 1]))), Empty));
      } else {
        built := Obj(Field(t[i], built, Empty));
      }
    }
  }

  /** applyTargetTransition; None when the target does not resolve (the source throws). */
  method ApplyTargetTransition(m: Machine, cur: StateValue, s: Path, ref: string) returns (r: Option<Applied>)
    requires s != []
    ensures r == ApplyTarget(m, cur, s, ref)
  {
    var target := ResolveTarget(m, Join(s), ref);
    if target.None? { return None; }
    ResolvedExists(m, Join(s), ref);
    var t := target.value;
    var c := CommonLength(s, t);
    var exits := CollectBottomUpExitEffects(m, cur, s[..c + 1]);

    var entries := EnterAncestors(m, t, c);
    var node := FindNode(m, t);
    var entered := EnterSubtree(node.value);
    entries := entries + entered.effects;
    var built := BuildBranch(m, cur, t, c);
    var next;
    if c == 0 {
      next := if m.kind == Parallel && cur.Obj? then Obj(Put(cur.fields, t[0], RegionValue(built, t[0]))) else built;
    } else {
      next := ReplaceAtLca(m, cur, t[..c], 0, built);
    }
    r := Some(Applied(t, next, exits, entries));
  }

  /** Adds the proper ancestors of a leaf to the candidate set. */
  method AddContainers(seen: seq<Path>, leaf: Path) returns (candidates: seq<Path>)
    requires leaf != []
    ensures candidates == AddNew(seen, ProperPrefixes(leaf))
  {
    candidates := seen;
    ghost var prefixes := ProperPrefixes(leaf);
    var len := |leaf| - 1;
    while len >= 1
      invariant 0 <= len <= |leaf| - 1
      invariant AddNew(candidates, prefixes[|leaf| - 1 - len..]) == AddNew(seen, prefixes)
      decreases len
    {
      assert prefixes[|leaf| - 1 - len..][0] == leaf[..len];
      assert prefixes[|leaf| - 1 - len..][1..] == prefixes[|leaf| - len..];
      if leaf[..len] !in candidates { candidates := candidates + [leaf[..len]]; }
      len := len - 1;
    }
    assert prefixes[|leaf| - 1..] == [];
  }

  method CollectContainers(leaves: seq<Path>) returns (candidates: seq<Path>)
    requires forall i :: 0 <= i < |leaves| ==> leaves[i] != []
    ensures candidates == Containers(leaves, [])
  {
    candidates := [];
    for i := 0 to |leaves|
      invariant Containers(leaves[i..], candidates) == Containers(leaves, [])
    {
      assert leaves[i..][0] == leaves[i] && leaves[i..][1..] == leaves[i + 1..];
      candidates := AddContainers(candidates, leaves[i]);
    }
    assert leaves[|leaves|..] == [];
  }

  method FindPending(m: Machine, v: StateValue) returns (pending: Option<Path>)
    ensures pending == FindPendingOnDone(m, v)
  {
    var leaves := GetActiveLeafPaths(m, v, []);
    var candidates := CollectContainers(leaves);
    var sorted := DeepestFirst(candidates, MaxDepth(candidates));
    pending := ScanCandidates(m, leaves, sorted);
  }

  method ScanCandidates(m: Machine, leaves: seq<Path>, sorted: seq<Path>) returns (pending: Option<Path>)
    ensures pending == FirstDone(m, leaves, sorted)
  {
    for i := 0 to |sorted|
      invariant FirstDone(m, leaves, sorted[i..]) == FirstDone(m, leaves, sorted)
    {
      assert sorted[i..][0] == sorted[i] && sorted[i..][1..] == sorted[i + 1..];
      if DoneByScan(m, leaves, sorted[i]) { return Some(sorted[i]); }
    }
    pending := None;
  }

  method GetAvailableEvents(m: Machine, v: StateValue) returns (events: seq<string>)
    ensures events == AvailableEvents(m, v)
  {
    var leaves := GetActiveLeafPaths(m, v, []);
    events := [];
    for i := 0 to |leaves|
      invariant LeafEvents(m, leaves[i..], events) == LeafEvents(m, leaves, [])
    {
      var leaf := leaves[i];
      assert leaves[i..][0] == leaf && leaves[i..][1..] == leaves[i + 1..];
      ghost var before := events;
      var len := |leaf|;
      while len >= 1
        invariant 0 <= len <= |leaf|
        invariant ChainEvents(m, leaf, len, events) == ChainEvents(m, leaf, |leaf|, before)
        decreases len
      {
        var node := FindNode(m, leaf[..len]);
        if node.Some? && node.value.kind != Final {
          events := AddNew(events, Keys(node.value.on));
        }
        len := len - 1;
      }
    }
    assert leaves[|leaves|..] == [];
  }

  /** `turn` stands for the turns of the machine in the proof of the loop. */
  ghost predicate Describes(m: Machine, turn: StateValue -> Turn) {
    forall x {:trigger TakeTurn(m, x)} :: turn(x) == TakeTurn(m, x)
  }

  method OneTurn(m: Machine, v: StateValue, ghost turn: StateValue -> Turn) returns (now: Turn)
    requires Describes(m, turn)
    ensures now == turn(v)
  {
    assert turn(v) == TakeTurn(m, v);
    var pending := FindPending(m, v);
    if pending.None? { return Turn(v, [], Some(Quiet)); }
    var edge := PendingEdge(m, v);
    if edge.target == "" { return Turn(v, edge.effects, Some(Untargeted)); }
    var applied := ApplyTargetTransition(m, v, pending.value, edge.target);
    if applied.None? { return Turn(v, [], Some(Unresolved)); }
    now := Turn(applied.value.next, applied.value.exits + edge.effects + applied.value.entries, None);
  }

  /** The cascade loop of executeTransitionOnSnapshot, where the limit is CascadeLimit. `told(k)` is
      what the handler of the k-th pending `onDone` adds. */
  method RunTurns(m: Machine, v: StateValue, limit: nat, told: nat -> seq<string>, ghost turn: StateValue -> Turn)
    returns (value: StateValue, effects: seq<string>, taken: nat, stop: Stop)
    requires Describes(m, turn)
    ensures Cascaded(value, taken, stop) == Repeat(turn, v, limit) && effects == RepeatEffects(turn, v, limit, told, 0)
  {
    value, effects, taken, stop := v, [], 0, Capped;
    ghost var whole := Repeat(turn, v, limit);
    ghost var all := RepeatEffects(turn, v, limit, told, 0);
    Start(turn, v, limit, told);
    while taken < limit
      invariant taken <= limit && Staged(turn, whole, value, limit - taken, taken) && stop == Capped
      invariant Left(turn, all, value, limit - taken, told, taken, effects)
    {
      var now := OneTurn(m, value, turn);
      Advance(turn, value, limit - taken, whole, taken, now);
      AdvanceEffects(turn, value, limit - taken, all, told, taken, effects, now);
      if now.stop != Some(Quiet) { effects := effects + told(taken) + now.effects; }
      if now.stop.Some? { return value, effects, taken, now.stop.value; }
      value, taken := now.next, taken + 1;
    }
    Finish(turn, whole, all, value, told, taken, effects);
  }

  method RunCascade(m: Machine, v: StateValue, limit: nat, told: nat -> seq<string>)
    returns (value: StateValue, effects: seq<string>, taken: nat, stop: Stop)
    ensures Cascaded(value, taken, stop) == Cascade(m, v, limit) && effects == CascadeEffects(m, v, limit, told)
  {
    value, effects, taken, stop := RunTurns(m, v, limit, told, Turns(m));
  }

  /** What is left to do from `value` completes the whole cascade. */
  ghost predicate Staged(turn: StateValue -> Turn, whole: Cascaded, value: StateValue, left: nat, taken: nat) {
    var rest := Repeat(turn, value, left);
    whole == rest.(taken := taken + rest.taken)
  }

  ghost predicate Left(turn: StateValue -> Turn, all: seq<string>, value: StateValue, left: nat, told: nat -> seq<string>, k: nat, effects: seq<string>) {
    all == effects + RepeatEffects(turn, value, left, told, k)
  }

  lemma Start(turn: StateValue -> Turn, v: StateValue, limit: nat, told: nat -> seq<string>)
    ensures Staged(turn, Repeat(turn, v, limit), v, limit, 0)
    ensures Left(turn, RepeatEffects(turn, v, limit, told, 0), v, limit, told, 0, [])
  {}

  lemma Finish(turn: StateValue -> Turn, whole: Cascaded, all: seq<string>, value: StateValue, told: nat -> seq<string>, k: nat, effects: seq<string>)
    requires Staged(turn, whole, value, 0, k) && Left(turn, all, value, 0, told, k, effects)
    ensures whole == Cascaded(value, k, Capped) && all == effects
  {}

  /** What one turn does to the invariants of the loop, for any turn function. */
  lemma Advance(turn: StateValue -> Turn, v: StateValue, left: nat, whole: Cascaded, taken: nat, now: Turn)
    requires left > 0 && now == turn(v) && Staged(turn, whole, v, left, taken)
    ensures now.stop.Some? ==> whole == Cascaded(v, taken, now.stop.value)
    ensures now.stop.None? ==> Staged(turn, whole, now.next, left - 1, taken + 1)
  {}

  lemma AdvanceEffects(turn: StateValue -> Turn, v: StateValue, left: nat, all: seq<string>, told: nat -> seq<string>, k: nat, effects: seq<string>, now: Turn)
    requires left > 0 && now == turn(v) && Left(turn, all, v, left, told, k, effects)
    ensures var next := if now.stop == Some(Quiet) then effects else effects + told(k) + now.effects;
      && (now.stop.Some? ==> all == next)
      && (now.stop.None? ==> Left(turn, all, now.next, left - 1, told, k + 1, next))
  {}
}
