/** The scans as the source writes them, over dotted strings (engine/statechart.ts, findPendingOnDone,
    isBranchFinalAt and collectBottomUpExitEffects). For keys without dots they are the scans over key
    sequences that the other modules use. */
module StringScans {
  import opened Records
  import opened Machines
  import opened PathLists
  import opened DotPaths
  import opened Configurations
  import opened Entry
  import opened Leaves
  import opened Engine
  import opened Completion

  function Joined(ps: seq<Path>): seq<string> {
    seq(|ps|, i requires 0 <= i < |ps| => Join(ps[i]))
  }

  predicate AtOrBelow(l: string, p: string) {
    l == p || StartsWith(l, p + ".")
  }

  /** leaves.filter((l) => l.startsWith(`${p}.`)) */
  function StringsBelow(leaves: seq<string>, p: string): seq<string> {
    if leaves == [] then []
    else (if StartsWith(leaves[0], p + ".") then [leaves[0]] else []) + StringsBelow(leaves[1..], p)
  }

  /** leaves.filter((l) => l === p || l.startsWith(`${p}.`)) */
  function StringsFrom(leaves: seq<string>, p: string): seq<string> {
    if leaves == [] then [] else (if AtOrBelow(leaves[0], p) then [leaves[0]] else []) + StringsFrom(leaves[1..], p)
  }

  function NodeOf(m: Machine, p: string): Option<Node> {
    GetNodeByPath(m, Segments(p))
  }

  predicate FinalString(m: Machine, leaf: string) {
    NodeOf(m, leaf).Some? && NodeOf(m, leaf).value.kind == Final
  }

  /** A node's key is the last part of its path. */
  predicate BranchFinalString(m: Machine, region: string, leaf: string) {
    && FinalString(m, leaf) && NodeOf(m, region).Some?
    && (NodeOf(m, region).value.kind == Final
        || (NodeOf(m, region).value.kind == Compound && Segments(leaf) != []
            && leaf == region + "." + Segments(leaf)[|Segments(leaf)| - 1]))
  }

  predicate RegionStringsDone(m: Machine, leaves: seq<string>, p: string, regions: Record<Node>) {
    match regions
    case Empty => true
    case Field(k, _, rest) =>
      var own := StringsFrom(leaves, p + "." + k);
      && own != [] && (forall i :: 0 <= i < |own| ==> BranchFinalString(m, p + "." + k, own[i]))
      && RegionStringsDone(m, leaves, p, rest)
  }

  predicate DoneByStrings(m: Machine, leaves: seq<string>, p: string) {
    var n := NodeOf(m, p);
    && n.Some? && n.value.onDone.Some?
    && match n.value.kind
       case Compound =>
         var own := StringsBelow(leaves, p);
         |own| == 1 && FinalString(m, own[0])
       case Parallel => RegionStringsDone(m, leaves, p, n.value.states)
       case _ => false
  }

  ghost predicate Keyed(ps: seq<Path>) {
    forall i :: 0 <= i < |ps| ==> ps[i] != [] && IsKeyPath(ps[i])
  }

  /** All state keys are non-empty and hold no dot. */
  ghost predicate KeyTree(m: Machine) {
    forall p :: GetNodeByPath(m, p).Some? ==> IsKeyPath(p)
  }

  lemma BelowTest(p: Path, q: Path)
    requires IsKeyPath(p) && IsKeyPath(q) && p != [] && q != []
    ensures StartsWith(Join(q), Join(p) + ".") <==> p < q
    ensures AtOrBelow(Join(q), Join(p)) <==> p <= q
  {
    PrefixTest(p, q);
  }

  lemma {:induction false} BelowIs(leaves: seq<Path>, p: Path)
    requires Keyed(leaves) && p != [] && IsKeyPath(p)
    ensures StringsBelow(Joined(leaves), Join(p)) == Joined(LeavesStrictlyBelow(leaves, p))
  {
    if leaves != [] {
      BelowTest(p, leaves[0]);
      BelowIs(leaves[1..], p);
      assert Joined(leaves)[1..] == Joined(leaves[1..]);
    }
  }

  lemma {:induction false} FromIs(leaves: seq<Path>, p: Path)
    requires Keyed(leaves) && p != [] && IsKeyPath(p)
    ensures StringsFrom(Joined(leaves), Join(p)) == Joined(LeavesFrom(leaves, p))
  {
    if leaves != [] {
      BelowTest(p, leaves[0]);
      FromIs(leaves[1..], p);
      assert Joined(leaves)[1..] == Joined(leaves[1..]);
    }
  }

  lemma FinalIs(m: Machine, p: Path)
    requires p != [] && IsKeyPath(p)
    ensures NodeOf(m, Join(p)) == GetNodeByPath(m, p) && (FinalString(m, Join(p)) <==> IsFinalPath(m, p))
  {
    SegmentsJoin(p);
  }

  lemma BranchFinalIs(m: Machine, region: Path, leaf: Path)
    requires region != [] && leaf != [] && IsKeyPath(region) && IsKeyPath(leaf)
    ensures BranchFinalString(m, Join(region), Join(leaf)) <==> IsBranchFinalAt(m, region, leaf)
  {
    FinalIs(m, region);
    FinalIs(m, leaf);
    SegmentsJoin(leaf);
    var key := [leaf[|leaf| - 1]];
    JoinConcat(region, key);
    assert Join(key) == key[0];
    PrefixTest(region + key, leaf);
  }

  lemma {:induction false} RegionsAre(m: Machine, leaves: seq<Path>, p: Path, regions: Record<Node>)
    requires Keyed(leaves) && p != [] && IsKeyPath(p) && forall k :: Has(regions, k) ==> IsKey(k)
    requires DistinctKeys(regions)
    ensures RegionStringsDone(m, Joined(leaves), Join(p), regions) <==> RegionsDone(m, leaves, p, regions)
  {
    match regions
    case Empty =>
    case Field(k, _, rest) =>
      assert Has(regions, k);
      forall j | Has(rest, j) ensures IsKey(j) { assert Has(regions, j); }
      RegionsAre(m, leaves, p, rest);
      JoinConcat(p, [k]);
      assert Join([k]) == k && IsKeyPath(p + [k]);
      FromIs(leaves, p + [k]);
      OneRegionIs(m, leaves, p + [k]);
  }

  lemma OneRegionIs(m: Machine, leaves: seq<Path>, q: Path)
    requires Keyed(leaves) && q != [] && IsKeyPath(q)
    ensures var own := LeavesFrom(leaves, q); var strings := Joined(own);
      (strings != [] && (forall i :: 0 <= i < |strings| ==> BranchFinalString(m, Join(q), strings[i])))
      <==> (own != [] && (forall i :: 0 <= i < |own| ==> IsBranchFinalAt(m, q, own[i])))
  {
    var own := LeavesFrom(leaves, q);
    forall i | 0 <= i < |own| ensures BranchFinalString(m, Join(q), Joined(own)[i]) <==> IsBranchFinalAt(m, q, own[i]) {
      LeavesFromMember(leaves, q, own[i]);
      BranchFinalIs(m, q, own[i]);
    }
    if forall i :: 0 <= i < |Joined(own)| ==> BranchFinalString(m, Join(q), Joined(own)[i]) {
      forall i | 0 <= i < |own| ensures IsBranchFinalAt(m, q, own[i]) { assert BranchFinalString(m, Join(q), Joined(own)[i]); }
    }
  }

  /** Main result: the test of the source on dotted strings finds a container done exactly when the
      scan on key sequences does. */
  lemma StringScanIs(m: Machine, leaves: seq<Path>, p: Path)
    requires KeyTree(m) && WellShaped(Root(m)) && Keyed(leaves) && p != [] && GetNodeByPath(m, p).Some?
    ensures DoneByStrings(m, Joined(leaves), Join(p)) <==> DoneByScan(m, leaves, p)
  {
    FinalIs(m, p);
    BelowIs(leaves, p);
    var n := GetNodeByPath(m, p).value;
    WellShapedAt(Root(m), p);
    forall k | Has(n.states, k) ensures IsKey(k) {
      NodeAtConcat(Root(m), p, [k]);
      assert [k][1..] == [] && GetNodeByPath(m, p + [k]).Some?;
      assert (p + [k])[|p|] == k;
    }
    RegionsAre(m, leaves, p, n.states);
    var own := LeavesStrictlyBelow(leaves, p);
    if |own| == 1 {
      StrictMember(leaves, p, own[0]);
      FinalIs(m, own[0]);
    }
  }

  lemma {:induction false} StrictMember(leaves: seq<Path>, p: Path, l: Path)
    ensures l in LeavesStrictlyBelow(leaves, p) ==> l in leaves
  {
    if leaves != [] { StrictMember(leaves[1..], p, l); }
  }

  /** The active leaves of a machine with such keys are keyed. */
  lemma LeavesAreKeyed(m: Machine, v: StateValue)
    requires Running(m, v) && ReadableRegions(LiveRoot(m)) && KeyTree(m)
    ensures Keyed(ActiveLeafPaths(m, v, []))
  {
    var leaves := ActiveLeafPaths(m, v, []);
    LiveRootShape(m);
    forall i | 0 <= i < |leaves| ensures leaves[i] != [] && IsKeyPath(leaves[i]) {
      LeavesOf(m, v, leaves[i]);
      assert leaves[i] <= leaves[i];
      ActiveNode(LiveRoot(m), v, leaves[i]);
      LiveLookup(m, leaves[i]);
    }
  }

  // ---- The exit scan ----

  /** The inner loop: the leaf and its ancestors, as long as they are at or below the prefix. */
  function Candidates(segments: seq<string>, len: nat, prefix: string): seq<string>
    requires len <= |segments|
  {
    if len == 0 then []
    else
      var candidate := Join(segments[..len]);
      if !AtOrBelow(candidate, prefix) then [] else [candidate] + Candidates(segments, len - 1, prefix)
  }

  function ExitStrings(leaves: seq<string>, prefix: string, seen: seq<string>): seq<string>
    decreases |leaves|
  {
    if leaves == [] then seen
    else ExitStrings(leaves[1..], prefix,
      if AtOrBelow(leaves[0], prefix) then AddNew(seen, Candidates(Segments(leaves[0]), |Segments(leaves[0])|, prefix)) else seen)
  }

  lemma {:induction false} CandidatesAre(leaf: Path, len: nat, prefix: Path)
    requires prefix != [] && prefix <= leaf && IsKeyPath(leaf) && |prefix| - 1 <= len <= |leaf|
    ensures Candidates(leaf, len, Join(prefix)) == Joined(Chain(leaf, prefix)[|leaf| - len..])
    decreases len
  {
    var chain := Chain(leaf, prefix);
    assert IsKeyPath(prefix);
    if len > 0 {
      BelowTest(prefix, leaf[..len]);
      if len >= |prefix| {
        CandidatesAre(leaf, len - 1, prefix);
        assert prefix <= leaf[..len];
        assert chain[|leaf| - len] == leaf[..len];
        assert chain[|leaf| - len..] == [leaf[..len]] + chain[|leaf| - (len - 1)..];
      } else {
        assert !(prefix <= leaf[..len]);
      }
    }
  }

  lemma JoinedMember(ps: seq<Path>, p: Path)
    requires Keyed(ps) && p != [] && IsKeyPath(p)
    ensures Join(p) in Joined(ps) <==> p in ps
  {
    if Join(p) in Joined(ps) {
      var i :| 0 <= i < |ps| && Joined(ps)[i] == Join(p);
      PrefixTest(p, ps[i]);
    }
    if p in ps {
      var i :| 0 <= i < |ps| && ps[i] == p;
      assert Joined(ps)[i] == Join(p);
    }
  }

  lemma {:induction false} AddJoined(seen: seq<Path>, more: seq<Path>)
    requires Keyed(seen) && Keyed(more)
    ensures AddNew(Joined(seen), Joined(more)) == Joined(AddNew(seen, more)) && Keyed(AddNew(seen, more))
    decreases |more|
  {
    if more != [] {
      JoinedMember(seen, more[0]);
      var next := if more[0] in seen then seen else seen + [more[0]];
      assert Joined(next) == if more[0] in seen then Joined(seen) else Joined(seen) + [Join(more[0])];
      assert Joined(more)[1..] == Joined(more[1..]);
      AddJoined(next, more[1..]);
    }
  }

  /** Main result: the exit scan of the source visits the joined paths of the exit order. */
  lemma {:induction false} ExitScanIs(leaves: seq<Path>, prefix: Path, seen: seq<Path>)
    requires Keyed(leaves) && Keyed(seen) && prefix != [] && IsKeyPath(prefix)
    ensures ExitStrings(Joined(leaves), Join(prefix), Joined(seen)) == Joined(ExitOrder(leaves, prefix, seen))
    decreases |leaves|
  {
    if leaves != [] {
      var leaf := leaves[0];
      BelowTest(prefix, leaf);
      SegmentsJoin(leaf);
      assert Joined(leaves)[1..] == Joined(leaves[1..]);
      var next := if prefix <= leaf then AddNew(seen, Chain(leaf, prefix)) else seen;
      if prefix <= leaf {
        CandidatesAre(leaf, |leaf|, prefix);
        assert Chain(leaf, prefix)[0..] == Chain(leaf, prefix);
        AddJoined(seen, Chain(leaf, prefix));
      }
      ExitScanIs(leaves[1..], prefix, next);
    }
  }
}
