/** The Mongo driver reads `nextCompStepSeq` and writes in two separate operations
    (store/mongodb-store.ts). Any number of writers may be between the two. */
module MongoStores {
  import opened Records
  import opened Stores

  datatype Doc<C> = Doc(row: Row<C>, nextCompStepSeq: nat, stack: seq<Entry<C>>)

  ghost predicate Sound<C>(d: Doc<C>) {
    Numbered(d.stack) && d.nextCompStepSeq == |d.stack| + 1
  }

  ghost predicate AllSound<C>(docs: map<string, Doc<C>>) {
    forall id :: id in docs ==> Sound(docs[id])
  }

  ghost function Abstract<C>(docs: map<string, Doc<C>>): map<string, Tx<C>> {
    map id | id in docs :: Tx(docs[id].row, Items(docs[id].stack))
  }

  predicate Matches<C>(docs: map<string, Doc<C>>, id: string, expected: nat) {
    id in docs && docs[id].row.version == expected
  }

  /** findOne({ _id, version }) with the projection of nextCompStepSeq. */
  function ReadSeq<C>(docs: map<string, Doc<C>>, id: string, expected: nat): Option<nat> {
    if Matches(docs, id, expected) then Some(docs[id].nextCompStepSeq) else None
  }

  /** updateOne({ _id, version }, { $set, $push }) */
  function Written<C>(docs: map<string, Doc<C>>, id: string, expected: nat, p: Patch<C>, comps: seq<Comp<C>>, baseSeq: nat)
    : map<string, Doc<C>>
  {
    if !Matches(docs, id, expected) then docs
    else
      var d := docs[id];
      var row := Patched(d.row, p);
      docs[id := if |comps| > 0 then Doc(row, baseSeq + |comps|, d.stack + Numbering(comps, baseSeq)) else d.(row := row)]
  }

  function Marked<C>(docs: map<string, Doc<C>>, id: string, k: nat): map<string, Doc<C>> {
    if id !in docs then docs else docs[id := docs[id].(stack := MarkEntries(docs[id].stack, k))]
  }

  /** The document class of the driver, one operation at a time. */
  class MongoStore<C(!new)> {
    var docs: map<string, Doc<C>>

    ghost predicate Valid() reads this { AllSound(docs) }

    ghost function Contents(): map<string, Tx<C>> reads this { Abstract(docs) }

    constructor ()
      ensures Valid() && Contents() == map[]
    {
      docs := map[];
    }

    method CreateTransaction(id: string, row: Row<C>) returns (ok: bool)
      requires Valid()
      modifies this
      ensures Valid()
      ensures ok <==> id !in old(Contents())
      ensures Contents() == if ok then old(Contents())[id := Tx(row, [])] else old(Contents())
    {
      ok := id !in docs;
      if ok {
        docs := docs[id := Doc(row, 1, [])];
        assert Contents() == old(Contents())[id := Tx(row, [])];
      }
    }

    /** Nothing intervenes between the read and the write: see UpdateInterleaved for the rest. */
    method UpdateTransaction(id: string, expected: nat, patch: Patch<C>, comps: seq<Comp<C>>)
      returns (version: Option<nat>)
      requires Valid()
      modifies this
      ensures Valid()
      ensures version == if id in old(Contents()) && old(Contents())[id].row.version == expected
                         then Some(expected + 1) else None
      ensures Contents() == if version.Some? then old(Contents())[id := UpdateTx(old(Contents())[id], patch, comps)]
                            else old(Contents())
    {
      var baseSeq := 1;
      if |comps| > 0 {
        var existing := ReadSeq(docs, id, expected);
        if existing.None? { return None; }
        baseSeq := existing.value;
      }
      var matched := Matches(docs, id, expected);
      WriteIsUpdate(docs, id, expected, patch, comps, baseSeq);
      docs := Written(docs, id, expected, patch, comps, baseSeq);
      version := if matched then Some(expected + 1) else None;
    }

    method GetUncompensatedStack(id: string) returns (stack: seq<Entry<C>>)
      requires Valid()
      ensures stack == if id in Contents() then Uncompensated(Contents()[id].stack) else []
    {
      if id !in docs { return []; }
      stack := Descending(Select(docs[id].stack));
      QueryIsUncompensated(docs[id].stack);
    }

    /** The positional update marks the first match: with unique numbers, the only one. */
    method MarkCompensationExecuted(id: string, stepSeq: nat)
      requires Valid()
      modifies this
      ensures Valid()
      ensures Contents() == if id in old(Contents()) then old(Contents())[id := MarkTx(old(Contents())[id], stepSeq)]
                            else old(Contents())
    {
      MarkIsAbstract(docs, id, stepSeq);
      docs := Marked(docs, id, stepSeq);
    }

    method DeleteTransaction(id: string)
      requires Valid()
      modifies this
      ensures Valid() && Contents() == old(Contents()) - {id}
    {
      docs := docs - {id};
    }
  }

  /** With the base read for this version, the write is the abstract update. */
  lemma WriteIsUpdate<C>(docs: map<string, Doc<C>>, id: string, expected: nat, p: Patch<C>, comps: seq<Comp<C>>, baseSeq: nat)
    requires AllSound(docs)
    requires |comps| > 0 && Matches(docs, id, expected) ==> baseSeq == docs[id].nextCompStepSeq
    ensures AllSound(Written(docs, id, expected, p, comps, baseSeq))
    ensures Abstract(Written(docs, id, expected, p, comps, baseSeq))
      == if Matches(docs, id, expected) then Abstract(docs)[id := UpdateTx(Abstract(docs)[id], p, comps)] else Abstract(docs)
  {
    if Matches(docs, id, expected) {
      var d := docs[id];
      var after := Written(docs, id, expected, p, comps, baseSeq);
      if |comps| > 0 {
        AppendIsNumbered(d.stack, comps);
      } else {
        assert Items(d.stack) + Pending(comps) == Items(d.stack);
      }
      assert Abstract(after)[id] == UpdateTx(Abstract(docs)[id], p, comps);
      assert forall other :: other in docs && other != id ==> after[other] == docs[other];
    }
  }

  lemma MarkIsAbstract<C>(docs: map<string, Doc<C>>, id: string, k: nat)
    requires AllSound(docs)
    ensures AllSound(Marked(docs, id, k))
    ensures Abstract(Marked(docs, id, k))
      == if id in docs then Abstract(docs)[id := MarkTx(Abstract(docs)[id], k)] else Abstract(docs)
  {
    if id in docs {
      MarkIsMark(docs[id].row, docs[id].stack, k);
      assert |MarkEntries(docs[id].stack, k)| == |docs[id].stack|;
      assert Abstract(Marked(docs, id, k))[id] == MarkTx(Abstract(docs)[id], k);
    }
  }

  // ---- Interleaving ----

  /** An update between its read and its write. */
  datatype Writer<C> = Writer(id: string, expected: nat, patch: Patch<C>, comps: seq<Comp<C>>, baseSeq: nat)

  /** `used` holds every id ever created: an id is not created again after its deletion. */
  datatype World<C> = World(docs: map<string, Doc<C>>, used: set<string>, writers: map<nat, Writer<C>>)

  /** One atomic operation. A writer that is never resumed has crashed. */
  datatype Action<C> =
    | Create(id: string, row: Row<C>)
    | Read(w: nat, id: string, expected: nat, patch: Patch<C>, comps: seq<Comp<C>>)
    | Write(w: nat)
    | Mark(id: string, k: nat)
    | Delete(id: string)

  function Perform<C>(s: World<C>, a: Action<C>): World<C> {
    match a
    case Create(id, row) =>
      if id in s.used then s else s.(docs := s.docs[id := Doc(row, 1, [])], used := s.used + {id})
    case Read(w, id, expected, patch, comps) =>
      if |comps| == 0 then s.(writers := s.writers[w := Writer(id, expected, patch, comps, 1)])
      else (match ReadSeq(s.docs, id, expected)
        case None => s.(writers := s.writers - {w})
        case Some(baseSeq) => s.(writers := s.writers[w := Writer(id, expected, patch, comps, baseSeq)]))
    case Write(w) =>
      if w !in s.writers then s
      else
        var x := s.writers[w];
        s.(docs := Written(s.docs, x.id, x.expected, x.patch, x.comps, x.baseSeq), writers := s.writers - {w})
    case Mark(id, k) => s.(docs := Marked(s.docs, id, k))
    case Delete(id) => s.(docs := s.docs - {id})
  }

  /** The same operation on the abstract store, where an update happens as a whole at its write. */
  ghost function Specified<C>(s: World<C>, txs: map<string, Tx<C>>, a: Action<C>): map<string, Tx<C>> {
    match a
    case Create(id, row) => if id in s.used then txs else txs[id := Tx(row, [])]
    case Read(_, _, _, _, _) => txs
    case Write(w) =>
      if w in s.writers && s.writers[w].id in txs && txs[s.writers[w].id].row.version == s.writers[w].expected
      then txs[s.writers[w].id := UpdateTx(txs[s.writers[w].id], s.writers[w].patch, s.writers[w].comps)]
      else txs
    case Mark(id, k) => if id in txs then txs[id := MarkTx(txs[id], k)] else txs
    case Delete(id) => txs - {id}
  }

  /** What a waiting writer has read is current, or its write will not match. */
  ghost predicate Current<C>(s: World<C>, x: Writer<C>) {
    |x.comps| > 0 ==>
      && x.id in s.used
      && (x.id in s.docs ==>
            && x.expected <= s.docs[x.id].row.version
            && (x.expected == s.docs[x.id].row.version ==> x.baseSeq == s.docs[x.id].nextCompStepSeq))
  }

  ghost predicate Consistent<C>(s: World<C>) {
    && AllSound(s.docs)
    && (forall id :: id in s.docs ==> id in s.used)
    && (forall w :: w in s.writers ==> Current(s, s.writers[w]))
  }

  lemma StaysCurrent<C>(s: World<C>, a: Action<C>, x: Writer<C>)
    requires Consistent(s) && Current(s, x)
    ensures Current(Perform(s, a), x)
  {}

  lemma NewWriter<C>(s: World<C>, a: Action<C>, w: nat)
    requires Consistent(s) && w in Perform(s, a).writers
    ensures Current(Perform(s, a), Perform(s, a).writers[w])
  {
    if w in s.writers && Perform(s, a).writers[w] == s.writers[w] {
      StaysCurrent(s, a, s.writers[w]);
    }
  }

  /** Main result, one operation: numbering is kept, and the driver does what the abstract store
      does. */
  lemma UpdateInterleaved<C>(s: World<C>, a: Action<C>)
    requires Consistent(s)
    ensures Consistent(Perform(s, a))
    ensures Abstract(Perform(s, a).docs) == Specified(s, Abstract(s.docs), a)
  {
    forall w | w in Perform(s, a).writers ensures Current(Perform(s, a), Perform(s, a).writers[w]) {
      NewWriter(s, a, w);
    }
    match a
    case Write(w) =>
      if w in s.writers {
        var x := s.writers[w];
        assert Current(s, x);
        WriteIsUpdate(s.docs, x.id, x.expected, x.patch, x.comps, x.baseSeq);
      }
    case Mark(id, k) => MarkIsAbstract(s.docs, id, k);
    case Create(id, row) => assert Items<C>([]) == [];
    case Read(_, _, _, _, _) =>
    case Delete(id) =>
  }

  function Run<C>(s: World<C>, actions: seq<Action<C>>): World<C>
    decreases |actions|
  {
    if actions == [] then s else Run(Perform(s, actions[0]), actions[1..])
  }

  ghost function SpecifiedRun<C>(s: World<C>, txs: map<string, Tx<C>>, actions: seq<Action<C>>): map<string, Tx<C>>
    decreases |actions|
  {
    if actions == [] then txs
    else SpecifiedRun(Perform(s, actions[0]), Specified(s, txs, actions[0]), actions[1..])
  }

  /** Main result: after any interleaving the stack of every document is numbered 1..n with
      `nextCompStepSeq` n + 1, and the collection is what the abstract store would hold. */
  lemma {:induction false} EveryInterleaving<C>(s: World<C>, actions: seq<Action<C>>)
    requires Consistent(s)
    ensures Consistent(Run(s, actions))
    ensures Abstract(Run(s, actions).docs) == SpecifiedRun(s, Abstract(s.docs), actions)
    decreases |actions|
  {
    if actions != [] {
      UpdateInterleaved(s, actions[0]);
      EveryInterleaving(Perform(s, actions[0]), actions[1..]);
    }
  }
}
