/** The Go state value: equality and the printed key (sdks/go/state_value.go). A Go map is a record
    whose order means nothing. */
module GoStates {
  import opened Records
  import opened Machines

  // ---- Matches ----

  function Length<V>(r: Record<V>): nat {
    match r
    case Empty => 0
    case Field(_, _, rest) => 1 + Length(rest)
  }

  predicate Matches(a: StateValue, b: StateValue)
    decreases a, 1
  {
    match (a, b)
    case (Leaf(x), Leaf(y)) => x == y
    case (Obj(f), Obj(g)) => Length(f) == Length(g) && EachMatches(f, g)
    case _ => false
  }

  /** The loop over the entries of `f`. */
  predicate EachMatches(f: Record<StateValue>, g: Record<StateValue>)
    decreases f, 0
  {
    match f
    case Empty => true
    case Field(k, v, rest) => Get(g, k).Some? && Matches(v, Get(g, k).value) && EachMatches(rest, g)
  }

  // ---- HashKey ----

  /** The byte order of strings. */
  predicate Less(a: string, b: string) {
    if b == "" then false
    else if a == "" then true
    else a[0] < b[0] || (a[0] == b[0] && Less(a[1..], b[1..]))
  }

  function Insert<V>(key: string, val: V, r: Record<V>): Record<V> {
    match r
    case Empty => Field(key, val, Empty)
    case Field(k, v, rest) => if Less(k, key) then Field(k, v, Insert(key, val, rest)) else Field(key, val, r)
  }

  function Sort<V>(r: Record<V>): Record<V> {
    match r
    case Empty => Empty
    case Field(k, v, rest) => Insert(k, v, Sort(rest))
  }

  /** `key:hash`, joined with commas. */
  function Parts(r: Record<string>): string {
    match r
    case Empty => ""
    case Field(k, h, Empty) => k + ":" + h
    case Field(k, h, rest) => k + ":" + h + "," + Parts(rest)
  }

  function HashKey(v: StateValue): string
    decreases v, 1
  {
    match v
    case Leaf(name) => name
    case Obj(fields) => "{" + Parts(Sort(Hashes(fields))) + "}"
  }

  function Hashes(r: Record<StateValue>): Record<string>
    decreases r, 0
  {
    match r
    case Empty => Empty
    case Field(k, v, rest) => Field(k, HashKey(v), Hashes(rest))
  }

  /** strings.Join(parts, ",") */
  function Commas(parts: seq<string>): string {
    if parts == [] then ""
    else if |parts| == 1 then parts[0]
    else parts[0] + "," + Commas(parts[1..])
  }

  function PartList(r: Record<string>): seq<string> {
    match r
    case Empty => []
    case Field(k, h, rest) => [k + ":" + h] + PartList(rest)
  }

  lemma {:induction false} PartsAreJoined(r: Record<string>)
    ensures Commas(PartList(r)) == Parts(r)
  {
    if r.Field? {
      PartsAreJoined(r.rest);
      assert PartList(r)[1..] == PartList(r.rest);
    }
  }

  /** The loop of HashKey over the sorted keys. */
  method HashObject(fields: Record<StateValue>) returns (hash: string)
    ensures hash == HashKey(Obj(fields))
  {
    var parts: seq<string> := [];
    var sorted := Sort(Hashes(fields));
    var left := sorted;
    while left.Field?
      invariant parts + PartList(left) == PartList(sorted)
      decreases left
    {
      parts := parts + [left.key + ":" + left.val];
      left := left.rest;
    }
    assert parts == PartList(sorted);
    PartsAreJoined(sorted);
    hash := "{" + Commas(parts) + "}";
  }

  // ---- Unique readability ----

  /** Names free of the four characters that HashKey uses itself. */
  predicate CleanName(s: string) {
    forall i :: 0 <= i < |s| ==> s[i] !in {'{', '}', ':', ','}
  }

  /** Clean names everywhere, and no key twice. */
  predicate Clean(v: StateValue) {
    match v
    case Leaf(name) => CleanName(name)
    case Obj(fields) => DistinctKeys(fields) && CleanFields(fields)
  }

  predicate CleanFields(r: Record<StateValue>) {
    match r
    case Empty => true
    case Field(k, v, rest) => CleanName(k) && Clean(v) && CleanFields(rest)
  }

  /** The value with its keys sorted at every level. */
  function Canonical(v: StateValue): StateValue
    decreases v, 1
  {
    match v
    case Leaf(_) => v
    case Obj(fields) => Obj(Sort(CanonicalFields(fields)))
  }

  function CanonicalFields(r: Record<StateValue>): Record<StateValue>
    decreases r, 0
  {
    match r
    case Empty => Empty
    case Field(k, v, rest) => Field(k, Canonical(v), CanonicalFields(rest))
  }

  /** Printing without sorting. */
  function Print(v: StateValue): string
    decreases v, 1
  {
    match v
    case Leaf(name) => name
    case Obj(fields) => "{" + PrintFields(fields) + "}"
  }

  function PrintFields(r: Record<StateValue>): string
    decreases r, 0
  {
    match r
    case Empty => ""
    case Field(k, v, Empty) => k + ":" + Print(v)
    case Field(k, v, rest) => k + ":" + Print(v) + "," + PrintFields(rest)
  }

  /** What can follow a printed value. */
  predicate Stop(s: string) {
    s == "" || s[0] == ',' || s[0] == '}'
  }

  lemma {:induction false} NameEnds(a: string, b: string, s: string, t: string)
    requires CleanName(a) && CleanName(b) && a + s == b + t
    requires (s == "" || s[0] in {'{', '}', ':', ','}) && (t == "" || t[0] in {'{', '}', ':', ','})
    ensures a == b && s == t
    decreases |a|
  {
    if a != "" && b != "" {
      assert (a + s)[0] == a[0] && (b + t)[0] == b[0];
      assert (a + s)[1..] == a[1..] + s && (b + t)[1..] == b[1..] + t;
      assert a == [a[0]] + a[1..] && b == [b[0]] + b[1..];
      NameEnds(a[1..], b[1..], s, t);
    } else {
      assert "" + s == s && "" + t == t;
      FirstOf(a, s);
      FirstOf(b, t);
    }
  }

  lemma FirstOf(a: string, s: string)
    ensures a != "" ==> (a + s)[0] == a[0]
  {}

  lemma {:induction false} PrintIsUnique(a: StateValue, b: StateValue, s: string, t: string)
    requires Clean(a) && Clean(b) && Stop(s) && Stop(t)
    requires Print(a) + s == Print(b) + t
    ensures a == b && s == t
    decreases a, 1
  {
    match (a, b)
    case (Leaf(x), Leaf(y)) => NameEnds(x, y, s, t);
    case (Obj(f), Obj(g)) =>
      Braces(PrintFields(f), s);
      Braces(PrintFields(g), t);
      FieldsAreUnique(f, g, "}" + s, "}" + t);
      NoBrace(s, t);
    case (Leaf(x), Obj(g)) =>
      Braces(PrintFields(g), t);
      LeafIsNotObject(x, s, PrintFields(g) + ("}" + t));
    case (Obj(f), Leaf(y)) =>
      Braces(PrintFields(f), s);
      LeafIsNotObject(y, t, PrintFields(f) + ("}" + s));
  }

  lemma Braces(inner: string, s: string)
    ensures "{" + inner + "}" + s == "{" + (inner + ("}" + s))
    ensures ("{" + (inner + ("}" + s)))[1..] == inner + ("}" + s)
  {
    Regroup("{", inner, "}", s);
  }

  lemma NoBrace(s: string, t: string)
    requires "}" + s == "}" + t
    ensures s == t
  {
    assert ("}" + s)[1..] == s && ("}" + t)[1..] == t;
  }

  lemma LeafIsNotObject(name: string, s: string, rest: string)
    requires CleanName(name) && Stop(s)
    ensures name + s != "{" + rest
  {
    if name != "" { assert (name + s)[0] == name[0]; } else { assert name + s == s; }
  }

  lemma {:induction false} FieldsAreUnique(f: Record<StateValue>, g: Record<StateValue>, s: string, t: string)
    requires CleanFields(f) && CleanFields(g)
    requires s != "" && s[0] == '}' && t != "" && t[0] == '}'
    requires PrintFields(f) + s == PrintFields(g) + t
    ensures f == g && s == t
    decreases f, 0
  {
    NoHead(s);
    NoHead(t);
    match (f, g)
    case (Empty, Empty) =>
    case (Empty, Field(k, v, rest)) => FieldsOpen(g, t);
    case (Field(k, v, rest), Empty) => FieldsOpen(f, s);
    case (Field(k, v, rest), Field(l, w, more)) =>
      var after := Tail(rest) + s;
      var others := Tail(more) + t;
      FieldsShape(f, s);
      FieldsShape(g, t);
      NameEnds(k, l, ":" + (Print(v) + after), ":" + (Print(w) + others));
      SameRest(Print(v) + after, Print(w) + others);
      PrintIsUnique(v, w, after, others);
      TailIsUnique(rest, more, s, t);
      if rest.Field? {
        FieldsAreUnique(rest, more, s, t);
      }
  }

  lemma SameRest(s: string, t: string)
    requires ":" + s == ":" + t
    ensures s == t
  {
    assert (":" + s)[1..] == s && (":" + t)[1..] == t;
  }

  lemma FieldsShape(f: Record<StateValue>, s: string)
    requires f.Field?
    ensures PrintFields(f) + s == f.key + (":" + (Print(f.val) + (Tail(f.rest) + s)))
    ensures s != "" && s[0] == '}' ==> Stop(Tail(f.rest) + s)
  {
    var head := f.key + ":" + Print(f.val);
    if f.rest.Empty? {
      assert PrintFields(f) == head;
      assert Tail(f.rest) + s == s;
      Regroup(f.key, ":", Print(f.val), s);
    } else {
      var tail := Tail(f.rest);
      Regroup(head, ",", PrintFields(f.rest), s);
      Regroup(f.key, ":", Print(f.val), tail + s);
      assert tail + s == "," + (PrintFields(f.rest) + s) by { Regroup("", ",", PrintFields(f.rest), s); NoHead(tail); }
    }
  }

  lemma Regroup(a: string, b: string, c: string, d: string)
    ensures a + b + c + d == a + (b + (c + d)) == a + b + (c + d)
    ensures b + c + d == b + (c + d)
  {}

  lemma NoHead(s: string)
    ensures "" + s == s
  {}

  /** Either both lists go on after a comma, or both are at their end. */
  lemma TailIsUnique(f: Record<StateValue>, g: Record<StateValue>, s: string, t: string)
    requires s != "" && s[0] == '}' && t != "" && t[0] == '}'
    requires Tail(f) + s == Tail(g) + t
    ensures f.Empty? <==> g.Empty?
    ensures PrintFields(f) + s == PrintFields(g) + t
  {
    TailShape(f, s);
    TailShape(g, t);
  }

  lemma TailShape(f: Record<StateValue>, s: string)
    requires s != "" && s[0] == '}'
    ensures Tail(f) + s != "" && ((Tail(f) + s)[0] == '}' <==> f.Empty?)
    ensures f.Empty? ==> Tail(f) + s == s && PrintFields(f) + s == s
    ensures f.Field? ==> (Tail(f) + s)[1..] == PrintFields(f) + s
  {
    NoHead(s);
    if f.Field? { Regroup("", ",", PrintFields(f), s); }
  }

  /** What follows the first entry. */
  function Tail(rest: Record<StateValue>): string {
    if rest.Empty? then "" else "," + PrintFields(rest)
  }

  /** A non-empty list of fields does not print as a closing brace. */
  lemma FieldsOpen(g: Record<StateValue>, t: string)
    requires g.Field? && CleanFields(g)
    ensures PrintFields(g) + t != "" && (PrintFields(g) + t)[0] != '}'
  {
    assert PrintFields(g) == g.key + (":" + (Print(g.val) + Tail(g.rest)));
    if g.key != "" { assert (PrintFields(g) + t)[0] == g.key[0]; }
  }

  // ---- Sorting ----

  lemma {:induction false} LessIsTotal(a: string, b: string)
    ensures !(Less(a, b) && Less(b, a)) && (a == b || Less(a, b) || Less(b, a)) && !Less(a, a)
  {
    if a != "" && b != "" {
      LessIsTotal(a[1..], b[1..]);
      LessIsTotal(a[1..], a[1..]);
      assert a == [a[0]] + a[1..] && b == [b[0]] + b[1..];
    } else if a != "" {
      LessIsTotal(a[1..], a[1..]);
    }
  }

  lemma {:induction false} LessIsTransitive(a: string, b: string, c: string)
    requires Less(a, b) && Less(b, c)
    ensures Less(a, c)
  {
    if a != "" && a[0] == b[0] && b[0] == c[0] { LessIsTransitive(a[1..], b[1..], c[1..]); }
  }

  /** Keys strictly ascending. */
  ghost predicate Ascending<V>(r: Record<V>) {
    match r
    case Empty => true
    case Field(k, _, rest) => (forall j :: Has(rest, j) ==> Less(k, j)) && Ascending(rest)
  }

  lemma {:induction false} InsertAscends<V>(key: string, val: V, r: Record<V>)
    requires Ascending(r) && !Has(r, key)
    ensures Ascending(Insert(key, val, r)) && Length(Insert(key, val, r)) == Length(r) + 1
    ensures forall j :: Get(Insert(key, val, r), j) == if j == key then Some(val) else Get(r, j)
  {
    match r
    case Empty =>
    case Field(k, v, rest) =>
      LessIsTotal(k, key);
      if Less(k, key) {
        InsertAscends(key, val, rest);
      } else {
        forall j | Has(r, j) ensures Less(key, j) { if j != k { LessIsTransitive(key, k, j); } }
      }
  }

  lemma {:induction false} SortSorts<V>(r: Record<V>)
    requires DistinctKeys(r)
    ensures Ascending(Sort(r)) && Length(Sort(r)) == Length(r)
    ensures forall j :: Get(Sort(r), j) == Get(r, j)
  {
    match r
    case Empty =>
    case Field(k, v, rest) =>
      SortSorts(rest);
      InsertAscends(k, v, Sort(rest));
  }

  /** A sorted record is determined by what it holds. */
  lemma {:induction false} SortedIsUnique<V>(f: Record<V>, g: Record<V>)
    requires Ascending(f) && Ascending(g) && forall j :: Get(f, j) == Get(g, j)
    ensures f == g
  {
    assert f.Field? ==> Has(f, f.key);
    assert g.Field? ==> Has(g, g.key);
    match (f, g)
    case (Empty, _) =>
    case (_, Empty) =>
    case (Field(k, v, rest), Field(l, w, more)) =>
      assert Has(g, k) && Has(f, l);
      LessIsTotal(k, l);
      assert k == l;
      forall j ensures Get(rest, j) == Get(more, j) {
        assert Get(f, j) == Get(g, j);
        LessIsTotal(k, k);
      }
      SortedIsUnique(rest, more);
  }

  /** The printed key is the sorted value, printed. */
  lemma {:induction false} HashIsPrint(v: StateValue)
    ensures HashKey(v) == Print(Canonical(v))
    decreases v, 1
  {
    if v.Obj? {
      HashesArePrints(v.fields);
      SortCommutes(CanonicalFields(v.fields));
      PartsArePrinted(Sort(CanonicalFields(v.fields)));
    }
  }

  function Printed(r: Record<StateValue>): Record<string> {
    match r
    case Empty => Empty
    case Field(k, v, rest) => Field(k, Print(v), Printed(rest))
  }

  lemma {:induction false} HashesArePrints(r: Record<StateValue>)
    ensures Hashes(r) == Printed(CanonicalFields(r))
    decreases r, 0
  {
    if r.Field? {
      HashIsPrint(r.val);
      HashesArePrints(r.rest);
    }
  }

  lemma {:induction false} InsertCommutes(key: string, val: StateValue, r: Record<StateValue>)
    ensures Insert(key, Print(val), Printed(r)) == Printed(Insert(key, val, r))
  {
    if r.Field? { InsertCommutes(key, val, r.rest); }
  }

  lemma {:induction false} SortCommutes(r: Record<StateValue>)
    ensures Sort(Printed(r)) == Printed(Sort(r))
  {
    if r.Field? {
      SortCommutes(r.rest);
      InsertCommutes(r.key, r.val, Sort(r.rest));
    }
  }

  lemma {:induction false} PartsArePrinted(r: Record<StateValue>)
    ensures Parts(Printed(r)) == PrintFields(r)
  {
    if r.Field? { PartsArePrinted(r.rest); }
  }

  // ---- Matching values have the same canonical form ----

  lemma {:induction false} CanonicalFieldsAre(r: Record<StateValue>, j: string)
    ensures Get(CanonicalFields(r), j) == if Has(r, j) then Some(Canonical(Get(r, j).value)) else None
  {
    if r.Field? { CanonicalFieldsAre(r.rest, j); }
  }

  lemma {:induction false} CanonicalFieldsDistinct(r: Record<StateValue>)
    requires DistinctKeys(r)
    ensures DistinctKeys(CanonicalFields(r)) && Length(CanonicalFields(r)) == Length(r)
  {
    if r.Field? {
      CanonicalFieldsDistinct(r.rest);
      CanonicalFieldsAre(r.rest, r.key);
    }
  }

  lemma {:induction false} CleanField(r: Record<StateValue>, j: string)
    requires CleanFields(r) && Has(r, j)
    ensures CleanName(j) && Clean(Get(r, j).value)
    ensures r decreases to Get(r, j).value
  {
    if r.key != j { CleanField(r.rest, j); }
  }

  lemma {:induction false} CanonicalIsClean(v: StateValue)
    requires Clean(v)
    ensures Clean(Canonical(v))
    decreases v, 1
  {
    if v.Obj? {
      CanonicalFieldsDistinct(v.fields);
      CanonicalFieldsAreClean(v.fields);
      SortIsClean(CanonicalFields(v.fields));
      SortSorts(CanonicalFields(v.fields));
      AscendingIsDistinct(Sort(CanonicalFields(v.fields)));
    }
  }

  lemma {:induction false} CanonicalFieldsAreClean(r: Record<StateValue>)
    requires CleanFields(r)
    ensures CleanFields(CanonicalFields(r))
    decreases r, 0
  {
    if r.Field? {
      CanonicalIsClean(r.val);
      CanonicalFieldsAreClean(r.rest);
    }
  }

  lemma {:induction false} SortIsClean(r: Record<StateValue>)
    requires CleanFields(r)
    ensures CleanFields(Sort(r))
  {
    if r.Field? {
      SortIsClean(r.rest);
      InsertIsClean(r.key, r.val, Sort(r.rest));
    }
  }

  lemma {:induction false} InsertIsClean(key: string, val: StateValue, r: Record<StateValue>)
    requires CleanFields(r) && CleanName(key) && Clean(val)
    ensures CleanFields(Insert(key, val, r))
  {
    if r.Field? { InsertIsClean(key, val, r.rest); }
  }

  lemma {:induction false} AscendingIsDistinct<V>(r: Record<V>)
    requires Ascending(r)
    ensures DistinctKeys(r)
  {
    if r.Field? {
      AscendingIsDistinct(r.rest);
      LessIsTotal(r.key, r.key);
    }
  }

  lemma {:induction false} EachMatchesIs(f: Record<StateValue>, g: Record<StateValue>)
    requires DistinctKeys(f)
    ensures EachMatches(f, g) <==> forall j :: Has(f, j) ==> Has(g, j) && Matches(Get(f, j).value, Get(g, j).value)
  {
    if f.Field? {
      EachMatchesIs(f.rest, g);
      assert Has(f, f.key);
      forall j | Has(f.rest, j) ensures Get(f, j) == Get(f.rest, j) {}
    }
  }

  function Without<V>(r: Record<V>, key: string): Record<V> {
    match r
    case Empty => Empty
    case Field(k, v, rest) => if k == key then rest else Field(k, v, Without(rest, key))
  }

  lemma {:induction false} WithoutIs<V>(r: Record<V>, key: string)
    requires DistinctKeys(r) && Has(r, key)
    ensures DistinctKeys(Without(r, key)) && Length(Without(r, key)) == Length(r) - 1
    ensures forall j :: Get(Without(r, key), j) == if j == key then None else Get(r, j)
  {
    if r.key != key { WithoutIs(r.rest, key); }
  }

  /** Equally many keys, all of the first among the second: the same keys. */
  lemma {:induction false} SameKeys<V>(f: Record<V>, g: Record<V>, j: string)
    requires DistinctKeys(f) && DistinctKeys(g) && Length(f) == Length(g)
    requires forall k :: Has(f, k) ==> Has(g, k)
    requires Has(g, j)
    ensures Has(f, j)
  {
    if f.Field? {
      assert Has(f, f.key);
      if j != f.key {
        WithoutIs(g, f.key);
        forall k | Has(f.rest, k) ensures Has(Without(g, f.key), k) { assert Has(f, k); }
        SameKeys(f.rest, Without(g, f.key), j);
      }
    }
  }

  lemma {:induction false} MatchesIsSameCanonical(a: StateValue, b: StateValue)
    requires Clean(a) && Clean(b)
    ensures Matches(a, b) <==> Canonical(a) == Canonical(b)
    decreases a
  {
    if a.Obj? && b.Obj? {
      var f, g := a.fields, b.fields;
      var x, y := CanonicalFields(f), CanonicalFields(g);
      CanonicalFieldsDistinct(f);
      CanonicalFieldsDistinct(g);
      SortSorts(x);
      SortSorts(y);
      EachMatchesIs(f, g);
      forall j | Has(f, j) && Has(g, j)
        ensures Matches(Get(f, j).value, Get(g, j).value) <==> Canonical(Get(f, j).value) == Canonical(Get(g, j).value)
      {
        CleanField(f, j);
        CleanField(g, j);
        MatchesIsSameCanonical(Get(f, j).value, Get(g, j).value);
      }
      forall j
        ensures Get(Sort(x), j) == if Has(f, j) then Some(Canonical(Get(f, j).value)) else None
        ensures Get(Sort(y), j) == if Has(g, j) then Some(Canonical(Get(g, j).value)) else None
      {
        CanonicalFieldsAre(f, j);
        CanonicalFieldsAre(g, j);
      }
      if Matches(a, b) {
        forall j ensures Get(Sort(x), j) == Get(Sort(y), j) {
          if Has(g, j) { SameKeys(f, g, j); }
        }
        SortedIsUnique(Sort(x), Sort(y));
      }
      if Sort(x) == Sort(y) {
        forall j | Has(f, j) ensures Has(g, j) && Matches(Get(f, j).value, Get(g, j).value) {
          assert Get(Sort(x), j) == Get(Sort(y), j);
        }
      }
    }
  }

  /** Main result: with clean names, two values have equal keys exactly when they match. */
  lemma HashKeyIsUniquelyReadable(a: StateValue, b: StateValue)
    requires Clean(a) && Clean(b)
    ensures HashKey(a) == HashKey(b) <==> Matches(a, b)
  {
    HashIsPrint(a);
    HashIsPrint(b);
    CanonicalIsClean(a);
    CanonicalIsClean(b);
    MatchesIsSameCanonical(a, b);
    if HashKey(a) == HashKey(b) {
      assert HashKey(a) + "" == HashKey(b) + "";
      PrintIsUnique(Canonical(a), Canonical(b), "", "");
    }
  }

  /** Without that condition it is not: a leaf can spell out an object. */
  lemma UncleanNamesCollide()
    ensures var a := Leaf("{x:y}"); var b := Obj(Field("x", Leaf("y"), Empty));
      HashKey(a) == HashKey(b) && !Matches(a, b)
  {}
}
