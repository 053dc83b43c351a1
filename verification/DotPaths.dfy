/** Dot-separated paths. The source stores paths as strings and tests them with `split(".")`,
    `startsWith(prefix + ".")` and `filter(Boolean)`; the rest of the model uses the sequence of
    keys. For keys that are not empty and hold no dot, the two agree. */
module DotPaths {
  import opened Machines

  predicate IsKey(k: string) {
    k != "" && '.' !in k
  }

  ghost predicate IsKeyPath(p: Path) {
    forall i :: 0 <= i < |p| ==> IsKey(p[i])
  }

  function Join(p: Path): string {
    if p == [] then "" else if |p| == 1 then p[0] else p[0] + "." + Join(p[1..])
  }

  /** `s.split(".")` */
  function Split(s: string): (r: seq<string>)
    ensures r != []
  {
    if s == "" then [""]
    else if s[0] == '.' then [""] + Split(s[1..])
    else var r := Split(s[1..]); [[s[0]] + r[0]] + r[1..]
  }

  /** `.filter(Boolean)` */
  function NonEmpty(parts: seq<string>): seq<string> {
    if parts == [] then []
    else (if parts[0] == "" then [] else [parts[0]]) + NonEmpty(parts[1..])
  }

  function Segments(s: string): Path {
    NonEmpty(Split(s))
  }

  predicate StartsWith(s: string, prefix: string) {
    prefix <= s
  }

  lemma {:induction false} SplitConcat(a: string, b: string)
    ensures Split(a + "." + b) == Split(a) + Split(b)
  {
    if a == "" {
      assert a + "." + b == "." + b && ("." + b)[1..] == b;
    } else {
      assert (a + "." + b)[1..] == a[1..] + "." + b;
      SplitConcat(a[1..], b);
    }
  }

  lemma {:induction false} SplitKey(k: string)
    requires '.' !in k
    ensures Split(k) == [k]
  {
    if k != "" {
      SplitKey(k[1..]);
      assert [k[0]] + k[1..] == k;
    }
  }

  lemma {:induction false} NonEmptyConcat(a: seq<string>, b: seq<string>)
    ensures NonEmpty(a + b) == NonEmpty(a) + NonEmpty(b)
  {
    if a == [] {
      assert a + b == b;
    } else {
      assert (a + b)[1..] == a[1..] + b;
      NonEmptyConcat(a[1..], b);
    }
  }

  /** Splitting undoes joining. */
  lemma {:induction false} SplitJoin(p: Path)
    requires IsKeyPath(p) && p != []
    ensures Split(Join(p)) == p
  {
    SplitKey(p[0]);
    if |p| > 1 {
      assert IsKeyPath(p[1..]);
      SplitConcat(p[0], Join(p[1..]));
      SplitJoin(p[1..]);
    }
  }

  lemma {:induction false} KeysAreNonEmpty(p: Path)
    requires IsKeyPath(p)
    ensures NonEmpty(p) == p
  {
    if p != [] {
      assert IsKeyPath(p[1..]);
      KeysAreNonEmpty(p[1..]);
    }
  }

  lemma {:induction false} SegmentsAreKeys(s: string)
    ensures IsKeyPath(Segments(s))
  {
    SplitHasNoDots(s);
    NonEmptyParts(Split(s));
  }

  lemma {:induction false} SplitHasNoDots(s: string)
    ensures forall i :: 0 <= i < |Split(s)| ==> '.' !in Split(s)[i]
  {
    if s != "" { SplitHasNoDots(s[1..]); }
  }

  lemma {:induction false} NonEmptyParts(parts: seq<string>)
    requires forall i :: 0 <= i < |parts| ==> '.' !in parts[i]
    ensures IsKeyPath(NonEmpty(parts))
  {
    if parts != [] { NonEmptyParts(parts[1..]); }
  }

  lemma SegmentsJoin(p: Path)
    requires IsKeyPath(p)
    ensures Segments(Join(p)) == p
  {
    if p != [] {
      SplitJoin(p);
      KeysAreNonEmpty(p);
    }
  }

  lemma {:induction false} SplitBelow(p: Path, ref: string)
    requires IsKeyPath(p)
    ensures Split(Join(p + [ref])) == p + Split(ref)
  {
    if p == [] {
      assert p + [ref] == [ref];
    } else {
      var tail := p[1..] + [ref];
      assert (p + [ref])[1..] == tail && (p + [ref])[0] == p[0];
      assert IsKeyPath(p[1..]);
      SplitBelow(p[1..], ref);
      SplitConcat(p[0], Join(tail));
      SplitKey(p[0]);
      assert [p[0]] + p[1..] == p;
    }
  }

  /** A reference joined below a path names the concatenation of both. */
  lemma SegmentsBelow(p: Path, ref: string)
    requires IsKeyPath(p)
    ensures Segments(Join(p + [ref])) == p + Segments(ref)
  {
    SplitBelow(p, ref);
    NonEmptyConcat(p, Split(ref));
    KeysAreNonEmpty(p);
  }

  lemma {:induction false} JoinConcat(p: Path, q: Path)
    requires p != [] && q != []
    ensures Join(p + q) == Join(p) + "." + Join(q)
  {
    if |p| == 1 {
      assert (p + q)[1..] == q;
    } else {
      assert (p + q)[1..] == p[1..] + q;
      JoinConcat(p[1..], q);
    }
  }

  /** The string tests of the source are the prefix test on key sequences. */
  lemma PrefixTest(p: Path, q: Path)
    requires IsKeyPath(p) && IsKeyPath(q) && p != [] && q != []
    ensures Join(q) == Join(p) || StartsWith(Join(q), Join(p) + ".") <==> p <= q
    ensures Join(q) == Join(p) <==> p == q
  {
    SplitJoin(p);
    SplitJoin(q);
    if StartsWith(Join(q), Join(p) + ".") {
      var rest := Join(q)[|Join(p) + "."|..];
      assert Join(q) == Join(p) + "." + rest;
      SplitConcat(Join(p), rest);
    }
    if p <= q && p != q {
      assert q == p + q[|p|..];
      JoinConcat(p, q[|p|..]);
    }
  }
}
