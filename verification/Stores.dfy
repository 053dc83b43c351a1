/** The record store: one abstract store, and the two drivers that implement it
    (store/store.ts, store/sqlite-store.ts, store/mongodb-store.ts). */
module Stores {
  import opened Records
  import opened Machines
  import opened Completion

  /** What a committed step leaves behind for its compensator. */
  datatype Comp<C> = Comp(key: string, from: StateValue, before: C)

  datatype Item<C> = Item(comp: Comp<C>, done: bool)

  datatype Entry<C> = Entry(stepSeq: nat, item: Item<C>)

  /** A transaction record. `leased` stands for the lease owner and its expiry, which are always
      set and cleared together. */
  datatype Row<C> = Row(
    state: StateValue,
    context: C,
    status: Status,
    activeStep: Option<string>,
    leased: bool,
    version: nat)

  /** TransactionUpdatePatch: None leaves a field as it is. */
  datatype Patch<C> = Patch(
    state: Option<StateValue>,
    context: Option<C>,
    status: Option<Status>,
    activeStep: Option<Option<string>>,
    leased: Option<bool>)

  /** A transaction in the abstract store: the k-th stack item has sequence number k + 1. */
  datatype Tx<C> = Tx(row: Row<C>, stack: seq<Item<C>>)

  function Or<T>(o: Option<T>, otherwise: T): T {
    if o.Some? then o.value else otherwise
  }

  function Patched<C>(row: Row<C>, p: Patch<C>): Row<C> {
    Row(Or(p.state, row.state), Or(p.context, row.context), Or(p.status, row.status),
        Or(p.activeStep, row.activeStep), Or(p.leased, row.leased), row.version + 1)
  }

  function Pending<C>(comps: seq<Comp<C>>): seq<Item<C>> {
    seq(|comps|, i requires 0 <= i < |comps| => Item(comps[i], false))
  }

  function UpdateTx<C>(tx: Tx<C>, p: Patch<C>, comps: seq<Comp<C>>): Tx<C> {
    Tx(Patched(tx.row, p), tx.stack + Pending(comps))
  }

  function MarkItem<C>(stack: seq<Item<C>>, k: nat): seq<Item<C>> {
    if 1 <= k <= |stack| then stack[k - 1 := stack[k - 1].(done := true)] else stack
  }

  function MarkTx<C>(tx: Tx<C>, k: nat): Tx<C> {
    tx.(stack := MarkItem(tx.stack, k))
  }

  /** The entries still to be compensated, newest first. */
  function Uncompensated<C>(stack: seq<Item<C>>): seq<Entry<C>> {
    if stack == [] then []
    else
      var n := |stack|;
      (if stack[n - 1].done then [] else [Entry(n, stack[n - 1])]) + Uncompensated(stack[..n - 1])
  }

  ghost predicate IsPending<C>(stack: seq<Item<C>>, e: Entry<C>) {
    1 <= e.stepSeq <= |stack| && e.item == stack[e.stepSeq - 1] && !e.item.done
  }

  predicate NewestFirst<C>(es: seq<Entry<C>>) {
    forall i, j :: 0 <= i < j < |es| ==> es[i].stepSeq > es[j].stepSeq
  }

  /** All pending entries, each once, in descending order. */
  lemma {:induction false} UncompensatedAre<C>(stack: seq<Item<C>>)
    ensures forall e :: e in Uncompensated(stack) <==> IsPending(stack, e)
    ensures NewestFirst(Uncompensated(stack))
  {
    if stack != [] {
      var n := |stack|;
      var below := Uncompensated(stack[..n - 1]);
      UncompensatedAre(stack[..n - 1]);
      forall e ensures e in Uncompensated(stack) <==> IsPending(stack, e) {
        assert e in below <==> IsPending(stack[..n - 1], e);
      }
      forall i, j | 0 <= i < j < |Uncompensated(stack)|
        ensures Uncompensated(stack)[i].stepSeq > Uncompensated(stack)[j].stepSeq
      {
        if stack[n - 1].done {
          assert Uncompensated(stack) == below;
        } else {
          assert Uncompensated(stack) == [Entry(n, stack[n - 1])] + below;
          assert below[j - 1] in below && IsPending(stack[..n - 1], below[j - 1]);
          assert i > 0 ==> Uncompensated(stack)[i] == below[i - 1];
        }
      }
    }
  }

  predicate AllDone<C>(stack: seq<Item<C>>) {
    forall i :: 0 <= i < |stack| ==> stack[i].done
  }

  lemma NothingPending<C>(stack: seq<Item<C>>)
    ensures Uncompensated(stack) == [] <==> AllDone(stack)
  {
    UncompensatedAre(stack);
    if Uncompensated(stack) == [] {
      forall i | 0 <= i < |stack| ensures stack[i].done {
        if !stack[i].done { assert IsPending(stack, Entry(i + 1, stack[i])); }
      }
    } else {
      assert IsPending(stack, Uncompensated(stack)[0]);
    }
  }

  // ---- What both drivers keep: numbered stacks ----

  /** The entries are numbered 1, 2, 3, ... in the order of insertion. */
  predicate Numbered<C>(es: seq<Entry<C>>) {
    forall i :: 0 <= i < |es| ==> es[i].stepSeq == i + 1
  }

  function Items<C>(es: seq<Entry<C>>): seq<Item<C>> {
    seq(|es|, i requires 0 <= i < |es| => es[i].item)
  }

  function Select<C>(es: seq<Entry<C>>): seq<Entry<C>> {
    if es == [] then []
    else Select(es[..|es| - 1]) + (if es[|es| - 1].item.done then [] else [es[|es| - 1]])
  }

  /** ORDER BY step_seq DESC, or a descending sort. */
  function Insert<C>(e: Entry<C>, es: seq<Entry<C>>): seq<Entry<C>> {
    if es == [] || e.stepSeq >= es[0].stepSeq then [e] + es else [es[0]] + Insert(e, es[1..])
  }

  function Descending<C>(es: seq<Entry<C>>): seq<Entry<C>> {
    if es == [] then [] else Insert(es[|es| - 1], Descending(es[..|es| - 1]))
  }

  /** Both drivers' queries return the uncompensated entries of the abstract store, newest first. */
  lemma {:induction false} QueryIsUncompensated<C>(es: seq<Entry<C>>)
    requires Numbered(es)
    ensures Descending(Select(es)) == Uncompensated(Items(es))
  {
    if es != [] {
      var init := es[..|es| - 1];
      var below := Uncompensated(Items(init));
      QueryIsUncompensated(init);
      UncompensatedAre(Items(init));
      assert Items(es)[..|es| - 1] == Items(init);
      if es[|es| - 1].item.done {
        assert Select(es) == Select(init);
      } else {
        assert Select(es)[..|Select(es)| - 1] == Select(init);
        if below != [] { assert below[0] in below; }
        assert es[|es| - 1] == Entry(|es|, Items(es)[|es| - 1]);
        assert Descending(Select(es)) == Insert(es[|es| - 1], below);
        assert Uncompensated(Items(es)) == [es[|es| - 1]] + below;
      }
    }
  }

  /** The whole stack, newest entry first. */
  function NewestDown<C>(stack: seq<Item<C>>): seq<Entry<C>> {
    if stack == [] then [] else [Entry(|stack|, stack[|stack| - 1])] + NewestDown(stack[..|stack| - 1])
  }

  lemma {:induction false} HeadOfNewest<C>(stack: seq<Item<C>>)
    ensures |NewestDown(stack)| == |stack| && (stack != [] ==> NewestDown(stack)[0].stepSeq == |stack|)
  {
    if stack != [] { HeadOfNewest(stack[..|stack| - 1]); }
  }

  lemma {:induction false} SortIsNewestDown<C>(es: seq<Entry<C>>)
    requires Numbered(es)
    ensures Descending(es) == NewestDown(Items(es))
  {
    if es != [] {
      var init := es[..|es| - 1];
      SortIsNewestDown(init);
      HeadOfNewest(Items(init));
      assert Items(es)[..|es| - 1] == Items(init);
      assert es[|es| - 1] == Entry(|es|, Items(es)[|es| - 1]);
    }
  }

  function MaxSeq<C>(es: seq<Entry<C>>): nat {
    if es == [] then 0
    else
      var below := MaxSeq(es[..|es| - 1]);
      if es[|es| - 1].stepSeq > below then es[|es| - 1].stepSeq else below
  }

  lemma {:induction false} MaxIsLength<C>(es: seq<Entry<C>>)
    requires Numbered(es)
    ensures MaxSeq(es) == |es|
  {
    if es != [] { MaxIsLength(es[..|es| - 1]); }
  }

  /** `comps` numbered from `first` on. */
  function Numbering<C>(comps: seq<Comp<C>>, first: nat): seq<Entry<C>> {
    seq(|comps|, i requires 0 <= i < |comps| => Entry(first + i, Item(comps[i], false)))
  }

  lemma AppendIsNumbered<C>(es: seq<Entry<C>>, comps: seq<Comp<C>>)
    requires Numbered(es)
    ensures Numbered(es + Numbering(comps, |es| + 1))
    ensures Items(es + Numbering(comps, |es| + 1)) == Items(es) + Pending(comps)
  {}

  /** Marks every entry that carries the number `k`. */
  function MarkEntries<C>(es: seq<Entry<C>>, k: nat): seq<Entry<C>> {
    seq(|es|, i requires 0 <= i < |es| =>
      if es[i].stepSeq == k then Entry(k, es[i].item.(done := true)) else es[i])
  }

  lemma MarkIsMark<C>(row: Row<C>, es: seq<Entry<C>>, k: nat)
    requires Numbered(es)
    ensures Numbered(MarkEntries(es, k))
    ensures Tx(row, Items(MarkEntries(es, k))) == MarkTx(Tx(row, Items(es)), k)
  {
    var marked := Items(MarkEntries(es, k));
    if 1 <= k <= |es| {
      assert marked == Items(es)[k - 1 := Items(es)[k - 1].(done := true)];
    } else {
      assert marked == Items(es);
    }
  }

  // ---- SQLite: two tables, each call one SQL transaction ----

  datatype StackRow<C> = StackRow(id: string, entry: Entry<C>)

  /** WHERE transaction_id = ? */
  function Of<C>(table: seq<StackRow<C>>, id: string): seq<Entry<C>> {
    if table == [] then []
    else
      var last := table[|table| - 1];
      Of(table[..|table| - 1], id) + (if last.id == id then [last.entry] else [])
  }

  lemma OfAppend<C>(table: seq<StackRow<C>>, row: StackRow<C>, id: string)
    ensures Of(table + [row], id) == Of(table, id) + (if row.id == id then [row.entry] else [])
  {
    assert (table + [row])[..|table|] == table;
  }

  function MarkTable<C>(table: seq<StackRow<C>>, id: string, k: nat): seq<StackRow<C>> {
    seq(|table|, i requires 0 <= i < |table| =>
      if table[i].id == id && table[i].entry.stepSeq == k
      then StackRow(id, Entry(k, table[i].entry.item.(done := true))) else table[i])
  }

  lemma {:induction false} OfMark<C>(table: seq<StackRow<C>>, id: string, k: nat, other: string)
    ensures Of(MarkTable(table, id, k), other) == if other == id then MarkEntries(Of(table, id), k) else Of(table, other)
  {
    if table != [] {
      var init := table[..|table| - 1];
      OfMark(init, id, k, other);
      assert MarkTable(table, id, k)[..|table| - 1] == MarkTable(init, id, k);
    }
  }

  /** ON DELETE CASCADE. */
  function Without<C>(table: seq<StackRow<C>>, id: string): seq<StackRow<C>> {
    if table == [] then []
    else Without(table[..|table| - 1], id) + (if table[|table| - 1].id == id then [] else [table[|table| - 1]])
  }

  lemma {:induction false} OfWithout<C>(table: seq<StackRow<C>>, id: string, other: string)
    ensures Of(Without(table, id), other) == if other == id then [] else Of(table, other)
  {
    if table != [] {
      var init := table[..|table| - 1];
      OfWithout(init, id, other);
      if table[|table| - 1].id != id {
        OfAppend(Without(init, id), table[|table| - 1], other);
      } else {
        assert Without(table, id) == Without(init, id);
      }
    }
  }

  ghost function Holding<C>(transactions: map<string, Row<C>>, table: seq<StackRow<C>>): map<string, Tx<C>> {
    map id | id in transactions :: Tx(transactions[id], Items(Of(table, id)))
  }

  /** A change to the rows of one transaction. */
  lemma OneChanged<C(!new)>(before: map<string, Row<C>>, table: seq<StackRow<C>>, after: map<string, Row<C>>, newTable: seq<StackRow<C>>, id: string)
    requires id in after && after == before[id := after[id]]
    requires forall other :: other != id ==> Of(newTable, other) == Of(table, other)
    ensures Holding(after, newTable) == Holding(before, table)[id := Tx(after[id], Items(Of(newTable, id)))]
  {}

  lemma OneRemoved<C(!new)>(before: map<string, Row<C>>, table: seq<StackRow<C>>, newTable: seq<StackRow<C>>, id: string)
    requires forall other :: other != id ==> Of(newTable, other) == Of(table, other)
    ensures Holding(before - {id}, newTable) == Holding(before, table) - {id}
  {}

  class SqliteStore<C(!new)> {
    var transactions: map<string, Row<C>>
    var compensations: seq<StackRow<C>>

    ghost predicate Valid() reads this {
      && (forall id :: Numbered(Of(compensations, id)))
      && (forall id :: id !in transactions ==> Of(compensations, id) == [])
    }

    /** The abstract store this driver holds. */
    ghost function Contents(): map<string, Tx<C>> reads this {
      Holding(transactions, compensations)
    }

    constructor ()
      ensures Valid() && Contents() == map[]
    {
      transactions, compensations := map[], [];
    }

    /** Fails on an existing id: it is the primary key. */
    method CreateTransaction(id: string, row: Row<C>) returns (ok: bool)
      requires Valid()
      modifies this
      ensures Valid()
      ensures ok <==> id !in old(Contents())
      ensures Contents() == if ok then old(Contents())[id := Tx(row, [])] else old(Contents())
    {
      ok := id !in transactions;
      if ok {
        transactions := transactions[id := row];
        assert Items(Of(compensations, id)) == [];
      }
    }

    /** The record and its whole stack, newest entry first. */
    method GetTransaction(id: string) returns (row: Option<Row<C>>, stack: seq<Entry<C>>)
      requires Valid()
      ensures row == if id in Contents() then Some(Contents()[id].row) else None
      ensures stack == if id in Contents() then NewestDown(Contents()[id].stack) else []
    {
      if id !in transactions { return None, []; }
      SortIsNewestDown(Of(compensations, id));
      row, stack := Some(transactions[id]), Descending(Of(compensations, id));
    }

    /** None is StaleTransactionVersionError, for a missing transaction too. */
    method UpdateTransaction(id: string, expected: nat, patch: Patch<C>, comps: seq<Comp<C>>)
      returns (version: Option<nat>)
      requires Valid()
      modifies this
      ensures Valid()
      ensures version == if id in old(Contents()) && old(Contents())[id].row.version == expected
                         then Some(expected + 1) else None
      ensures Contents() == if version.Some? then old(Contents())[id := UpdateTx(old(Contents())[id], patch, comps)]
                            else old(Contents())
    {
      if id !in transactions || transactions[id].version != expected { return None; }
      transactions := transactions[id := Patched(transactions[id], patch)];
      if |comps| > 0 { InsertCompensations(id, comps); }
      ghost var before := old(Of(compensations, id));
      assert Of(compensations, id) == before + Numbering(comps, |before| + 1);
      AppendIsNumbered(before, comps);
      OneChanged(old(transactions), old(compensations), transactions, compensations, id);
      version := Some(expected + 1);
    }

    /** Numbers the new rows from the greatest number in use plus one. */
    method InsertCompensations(id: string, comps: seq<Comp<C>>)
      requires Numbered(Of(compensations, id))
      modifies this`compensations
      ensures Of(compensations, id) == old(Of(compensations, id)) + Numbering(comps, |old(Of(compensations, id))| + 1)
      ensures forall other :: other != id ==> Of(compensations, other) == old(Of(compensations, other))
    {
      ghost var before := Of(compensations, id);
      ghost var all := Numbering(comps, |before| + 1);
      MaxIsLength(before);
      var nextSeq := MaxSeq(Of(compensations, id)) + 1;
      for i := 0 to |comps|
        invariant nextSeq == |before| + 1 + i
        invariant Of(compensations, id) == before + all[..i]
        invariant forall other :: other != id ==> Of(compensations, other) == old(Of(compensations, other))
      {
        var row := StackRow(id, Entry(nextSeq, Item(comps[i], false)));
        ghost var table := compensations;
        assert all[..i + 1] == all[..i] + [row.entry];
        compensations := compensations + [row];
        nextSeq := nextSeq + 1;
        forall other ensures Of(compensations, other) == Of(table, other) + (if other == id then [row.entry] else []) {
          OfAppend(table, row, other);
        }
      }
      assert all[..|comps|] == all;
    }

    method GetUncompensatedStack(id: string) returns (stack: seq<Entry<C>>)
      requires Valid()
      ensures stack == if id in Contents() then Uncompensated(Contents()[id].stack) else []
    {
      stack := Descending(Select(Of(compensations, id)));
      QueryIsUncompensated(Of(compensations, id));
    }

    method MarkCompensationExecuted(id: string, stepSeq: nat)
      requires Valid()
      modifies this
      ensures Valid()
      ensures Contents() == if id in old(Contents()) then old(Contents())[id := MarkTx(old(Contents())[id], stepSeq)]
                            else old(Contents())
    {
      forall other
        ensures Of(MarkTable(compensations, id, stepSeq), other)
          == if other == id then MarkEntries(Of(compensations, id), stepSeq) else Of(compensations, other)
      {
        OfMark(compensations, id, stepSeq, other);
      }
      compensations := MarkTable(compensations, id, stepSeq);
      if id in transactions {
        MarkIsMark(transactions[id], old(Of(compensations, id)), stepSeq);
        OneChanged(transactions, old(compensations), transactions, compensations, id);
      }
    }

    method DeleteTransaction(id: string)
      requires Valid()
      modifies this
      ensures Valid()
      ensures Contents() == old(Contents()) - {id}
    {
      forall other ensures Of(Without(compensations, id), other) == if other == id then [] else Of(compensations, other) {
        OfWithout(compensations, id, other);
      }
      OneRemoved(transactions, compensations, Without(compensations, id), id);
      transactions := transactions - {id};
      compensations := Without(compensations, id);
    }
  }
}
