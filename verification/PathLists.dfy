/** Lists of paths, and the effects collected along them. */
module PathLists {
  import opened Records
  import opened Machines

  /** Every path of `ps`, seen from one level up. */
  function Under(key: string, ps: seq<Path>): seq<Path> {
    seq(|ps|, i requires 0 <= i < |ps| => [key] + ps[i])
  }

  /** Every path of `ps`, seen from the root when `ps` is relative to `prefix`. */
  function Below(prefix: Path, ps: seq<Path>): seq<Path> {
    seq(|ps|, i requires 0 <= i < |ps| => prefix + ps[i])
  }

  lemma UnderMember(key: string, ps: seq<Path>, p: Path)
    ensures p in Under(key, ps) <==> p != [] && p[0] == key && p[1..] in ps
  {
    if p != [] && p[0] == key && p[1..] in ps {
      var i :| 0 <= i < |ps| && ps[i] == p[1..];
      assert Under(key, ps)[i] == p;
    }
    if p in Under(key, ps) {
      var i :| 0 <= i < |ps| && Under(key, ps)[i] == p;
      assert p[1..] == ps[i];
    }
  }

  lemma BelowMember(prefix: Path, ps: seq<Path>, p: Path)
    ensures p in Below(prefix, ps) <==> prefix <= p && p[|prefix|..] in ps
  {
    if prefix <= p && p[|prefix|..] in ps {
      var i :| 0 <= i < |ps| && ps[i] == p[|prefix|..];
      assert Below(prefix, ps)[i] == p;
    }
    if p in Below(prefix, ps) {
      var i :| 0 <= i < |ps| && Below(prefix, ps)[i] == p;
      assert p[|prefix|..] == ps[i];
    }
  }

  lemma BelowUnder(prefix: Path, key: string, ps: seq<Path>)
    ensures Below(prefix, Under(key, ps)) == Below(prefix + [key], ps)
  {
    forall i | 0 <= i < |ps| ensures prefix + ([key] + ps[i]) == prefix + [key] + ps[i] {}
  }

  lemma BelowAppend(prefix: Path, ps: seq<Path>, qs: seq<Path>)
    ensures Below(prefix, ps + qs) == Below(prefix, ps) + Below(prefix, qs)
  {}

  predicate NoDup(ps: seq<Path>) {
    forall i, j :: 0 <= i < j < |ps| ==> ps[i] != ps[j]
  }

  /** Every path is the empty one or comes after its parent. */
  ghost predicate ParentsFirst(ps: seq<Path>) {
    forall i :: 0 <= i < |ps| ==> ParentBefore(ps, i)
  }

  ghost predicate ParentBefore(ps: seq<Path>, i: nat)
    requires i < |ps|
  {
    ps[i] == [] || exists e :: 0 <= e < i && IsParent(ps[e], ps[i])
  }

  predicate IsParent(p: Path, q: Path) {
    q != [] && q[..|q| - 1] == p
  }

  /** Adding to an insertion-ordered JavaScript set. */
  function AddNew<T(==)>(seen: seq<T>, items: seq<T>): seq<T>
    decreases |items|
  {
    if items == [] then seen
    else AddNew(if items[0] in seen then seen else seen + [items[0]], items[1..])
  }

  lemma {:induction false} AddNewMembers<T>(seen: seq<T>, items: seq<T>, x: T)
    ensures x in AddNew(seen, items) <==> x in seen || x in items
    decreases |items|
  {
    if items != [] {
      AddNewMembers(if items[0] in seen then seen else seen + [items[0]], items[1..], x);
    }
  }

  function EntryList(n: Node): seq<string> { n.entry }

  function ExitList(n: Node): seq<string> { n.exit }

  /** The effect lists that `f` picks from the nodes named by `ps`, in that order. */
  function Collect(n: Node, ps: seq<Path>, f: Node -> seq<string>): seq<string> {
    if ps == [] then []
    else (var c := NodeAt(n, ps[0]); if c.Some? then f(c.value) else []) + Collect(n, ps[1..], f)
  }

  lemma {:induction false} CollectAppend(n: Node, ps: seq<Path>, qs: seq<Path>, f: Node -> seq<string>)
    ensures Collect(n, ps + qs, f) == Collect(n, ps, f) + Collect(n, qs, f)
  {
    if ps == [] {
      assert ps + qs == qs;
    } else {
      assert (ps + qs)[0] == ps[0] && (ps + qs)[1..] == ps[1..] + qs;
      CollectAppend(n, ps[1..], qs, f);
    }
  }

  lemma {:induction false} CollectUnder(n: Node, key: string, ps: seq<Path>, f: Node -> seq<string>)
    requires Has(n.states, key)
    ensures Collect(n, Under(key, ps), f) == Collect(Get(n.states, key).value, ps, f)
  {
    if ps != [] {
      assert Under(key, ps)[1..] == Under(key, ps[1..]);
      assert ([key] + ps[0])[1..] == ps[0];
      CollectUnder(n, key, ps[1..], f);
    }
  }

  lemma {:induction false} CollectBelow(n: Node, prefix: Path, ps: seq<Path>, f: Node -> seq<string>)
    requires NodeAt(n, prefix).Some?
    ensures Collect(n, Below(prefix, ps), f) == Collect(NodeAt(n, prefix).value, ps, f)
  {
    if ps != [] {
      assert Below(prefix, ps)[1..] == Below(prefix, ps[1..]);
      NodeAtConcat(n, prefix, ps[0]);
      CollectBelow(n, prefix, ps[1..], f);
    }
  }
}
