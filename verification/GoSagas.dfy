/** The Go saga: pop a step, then compensate it, restoring the context recorded before it
    (sdks/go/store_memory.go, sdks/go/actor.go). */
module GoSagas {
  import opened Records
  import opened Machines

  /** The fields that the rollback reads. A context is its JSON text. */
  datatype Step = Step(name: string, compensateHandler: string, contextBeforeJson: string)

  datatype GoRecord = GoRecord(state: StateValue, contextJson: string, status: string, version: int)

  datatype UpdateResult = Updated | NotFound | Stale(actual: int)

  /** Every method runs under the lock, and copies what it is given and what it returns. */
  class MemoryStateStore {
    var transactions: map<string, GoRecord>
    var sagaStacks: map<string, seq<Step>>

    function Stack(id: string): seq<Step> reads this {
      if id in sagaStacks then sagaStacks[id] else []
    }

    constructor ()
      ensures transactions == map[] && sagaStacks == map[]
    {
      transactions, sagaStacks := map[], map[];
    }

    /** Overwrites an existing record. */
    method CreateTransaction(id: string, record: GoRecord, stack: seq<Step>)
      modifies this
      ensures transactions == old(transactions)[id := record] && sagaStacks == old(sagaStacks)[id := stack]
    {
      transactions := transactions[id := record];
      sagaStacks := sagaStacks[id := stack];
    }

    method GetTransaction(id: string) returns (record: Option<GoRecord>, stack: seq<Step>)
      ensures record == if id in transactions then Some(transactions[id]) else None
      ensures stack == if id in transactions then Stack(id) else []
    {
      if id !in transactions { return None, []; }
      record, stack := Some(transactions[id]), Stack(id);
    }

    /** The record is replaced as a whole; its new version is the caller's. */
    method UpdateTransaction(id: string, record: GoRecord, expectedVersion: int) returns (r: UpdateResult)
      modifies this`transactions
      ensures r == if id !in old(transactions) then NotFound
                   else if old(transactions)[id].version != expectedVersion then Stale(old(transactions)[id].version)
                   else Updated
      ensures transactions == if r == Updated then old(transactions)[id := record] else old(transactions)
    {
      if id !in transactions { return NotFound; }
      if transactions[id].version != expectedVersion { return Stale(transactions[id].version); }
      transactions := transactions[id := record];
      r := Updated;
    }

    method PushSagaStep(id: string, step: Step)
      modifies this`sagaStacks
      ensures Stack(id) == old(Stack(id)) + [step]
      ensures forall other :: other != id ==> Stack(other) == old(Stack(other))
    {
      sagaStacks := sagaStacks[id := Stack(id) + [step]];
    }

    method PopSagaStep(id: string) returns (step: Option<Step>)
      modifies this`sagaStacks
      ensures step.None? <==> old(Stack(id)) == []
      ensures step.Some? ==> old(Stack(id)) == Stack(id) + [step.value]
      ensures step.None? ==> Stack(id) == []
      ensures forall other :: other != id ==> Stack(other) == old(Stack(other))
    {
      var stack := Stack(id);
      if |stack| == 0 { return None; }
      step := Some(stack[|stack| - 1]);
      sagaStacks := sagaStacks[id := stack[..|stack| - 1]];
    }

    method DeleteTransaction(id: string)
      modifies this
      ensures transactions == old(transactions) - {id} && sagaStacks == old(sagaStacks) - {id}
    {
      transactions, sagaStacks := transactions - {id}, sagaStacks - {id};
    }
  }

  // ---- Rollback ----

  /** The step's handler is registered and it recorded a context. */
  predicate Applies(registered: set<string>, step: Step) {
    step.compensateHandler in registered && step.contextBeforeJson != ""
  }

  /** The context after compensating a stack from its end. */
  function RolledBack(registered: set<string>, stack: seq<Step>, contextJson: string): string
    decreases |stack|
  {
    if stack == [] then contextJson
    else
      var last := stack[|stack| - 1];
      RolledBack(registered, stack[..|stack| - 1], if Applies(registered, last) then last.contextBeforeJson else contextJson)
  }

  function Reverse(steps: seq<Step>): seq<Step> {
    if steps == [] then [] else [steps[|steps| - 1]] + Reverse(steps[..|steps| - 1])
  }

  /** The failure branch of Transition: pops as many steps as the stack held, in reverse order of
      their pushes. `popped` is what the compensation hook is told. */
  method Rollback(store: MemoryStateStore, id: string, registered: set<string>, current: string)
    returns (contextJson: string, popped: seq<Step>)
    modifies store`sagaStacks
    ensures store.Stack(id) == []
    ensures popped == Reverse(old(store.Stack(id)))
    ensures contextJson == RolledBack(registered, old(store.Stack(id)), current)
    ensures forall other :: other != id ==> store.Stack(other) == old(store.Stack(other))
  {
    contextJson, popped := current, [];
    var remaining := |store.Stack(id)|;
    ghost var all := store.Stack(id);
    while remaining > 0
      invariant remaining == |store.Stack(id)|
      invariant RolledBack(registered, store.Stack(id), contextJson) == RolledBack(registered, all, current)
      invariant popped + Reverse(store.Stack(id)) == Reverse(all)
      invariant forall other :: other != id ==> store.Stack(other) == old(store.Stack(other))
    {
      ghost var before := store.Stack(id);
      var step := store.PopSagaStep(id);
      assert before[..|before| - 1] == store.Stack(id);
      if step.value.compensateHandler in registered {
        if step.value.contextBeforeJson != "" { contextJson := step.value.contextBeforeJson; }
      }
      popped := popped + [step.value];
      remaining := remaining - 1;
    }
  }

  lemma {:induction false} RolledBackAppend(registered: set<string>, first: Step, rest: seq<Step>, contextJson: string)
    ensures RolledBack(registered, [first] + rest, contextJson)
      == if Applies(registered, first) then first.contextBeforeJson else RolledBack(registered, rest, contextJson)
    decreases |rest|
  {
    if rest == [] {
      assert [first] + rest == [first] && [first][..0] == [];
    } else {
      var last := rest[|rest| - 1];
      assert ([first] + rest)[..|rest|] == [first] + rest[..|rest| - 1];
      RolledBackAppend(registered, first, rest[..|rest| - 1], if Applies(registered, last) then last.contextBeforeJson else contextJson);
    }
  }

  /** Main result: the context left by a rollback is the one recorded before the earliest step that
      has a registered handler and a recorded context; without such a step it stays. */
  lemma {:induction false} EarliestStepWins(registered: set<string>, stack: seq<Step>, contextJson: string)
    ensures
      var r := RolledBack(registered, stack, contextJson);
      || (r == contextJson && forall i :: 0 <= i < |stack| ==> !Applies(registered, stack[i]))
      || exists i :: 0 <= i < |stack| && Applies(registered, stack[i]) && r == stack[i].contextBeforeJson
                     && forall j :: 0 <= j < i ==> !Applies(registered, stack[j])
    decreases |stack|
  {
    if stack != [] {
      var rest := stack[1..];
      assert stack == [stack[0]] + rest;
      RolledBackAppend(registered, stack[0], rest, contextJson);
      if !Applies(registered, stack[0]) {
        EarliestStepWins(registered, rest, contextJson);
        if i :| 0 <= i < |rest| && Applies(registered, rest[i]) && RolledBack(registered, rest, contextJson) == rest[i].contextBeforeJson
                && forall j :: 0 <= j < i ==> !Applies(registered, rest[j]) {
          forall j | 0 <= j < i + 1 ensures !Applies(registered, stack[j]) {
            if j > 0 { assert stack[j] == rest[j - 1]; }
          }
          assert stack[i + 1] == rest[i];
        } else {
          forall i | 0 <= i < |stack| ensures !Applies(registered, stack[i]) {
            if i > 0 { assert stack[i] == rest[i - 1]; }
          }
        }
      }
    }
  }

  /** The stack of committed steps: step i pushed the context it found, `contexts[i]`. */
  ghost predicate Committed(registered: set<string>, stack: seq<Step>, contexts: seq<string>) {
    && |contexts| == |stack| + 1
    && forall i :: 0 <= i < |stack| ==>
         stack[i].compensateHandler in registered && stack[i].contextBeforeJson == contexts[i]
  }

  /** Main result: when every step is compensable, rolling back restores the context from before the
      first step exactly when that context is non-empty text, or no context ever was. */
  lemma RollbackUndoesIff(registered: set<string>, stack: seq<Step>, contexts: seq<string>)
    requires Committed(registered, stack, contexts)
    ensures RolledBack(registered, stack, contexts[|stack|]) == contexts[0]
      <==> contexts[0] != "" || forall i :: 0 <= i < |contexts| ==> contexts[i] == ""
  {
    EarliestStepWins(registered, stack, contexts[|stack|]);
    if stack != [] { assert Applies(registered, stack[0]) <==> contexts[0] != ""; }
    if contexts[0] == "" && forall i :: 0 <= i < |stack| ==> contexts[i] == "" {
      forall i | 0 <= i < |stack| ensures !Applies(registered, stack[i]) { assert contexts[i] == ""; }
    }
  }

  // ---- The steps that a rollback undoes ----

  /** A handled event: the compensation handler of its policy ("" for none), whether the handler
      returned a context, that context's JSON text, None when marshalling fails, and the state and
      status at which the event settles. */
  datatype Success =
    Success(name: string, compensateHandler: string, updated: bool, marshalled: Option<string>, state: StateValue, status: string)

  /** The error of json.Marshal is ignored: a failure leaves the empty text. */
  function ContextAfter(contextJson: string, done: Success): string {
    if !done.updated then contextJson else if done.marshalled.Some? then done.marshalled.value else ""
  }

  function StepOf(contextJson: string, done: Success): seq<Step> {
    if done.compensateHandler == "" then [] else [Step(done.name, done.compensateHandler, contextJson)]
  }

  /** The success branch of Transition: the step is pushed before the version-checked update. A stale
      update leaves the pushed step of a transition that never committed. */
  method CommitStep(store: MemoryStateStore, id: string, record: GoRecord, done: Success) returns (r: UpdateResult)
    modifies store
    ensures store.Stack(id) == old(store.Stack(id)) + StepOf(record.contextJson, done)
    ensures forall other :: other != id ==> store.Stack(other) == old(store.Stack(other))
    ensures r == if id !in old(store.transactions) then NotFound
                 else if old(store.transactions)[id].version != record.version then Stale(old(store.transactions)[id].version)
                 else Updated
    ensures store.transactions == if r != Updated then old(store.transactions)
      else old(store.transactions)[id := GoRecord(done.state, ContextAfter(record.contextJson, done), done.status, record.version + 1)]
  {
    if done.compensateHandler != "" {
      store.PushSagaStep(id, Step(done.name, done.compensateHandler, record.contextJson));
    }
    r := store.UpdateTransaction(id, GoRecord(done.state, ContextAfter(record.contextJson, done), done.status, record.version + 1), record.version);
  }

  function Pushed(contextJson: string, dones: seq<Success>): seq<Step>
    decreases |dones|
  {
    if dones == [] then [] else StepOf(contextJson, dones[0]) + Pushed(ContextAfter(contextJson, dones[0]), dones[1..])
  }

  function Contexts(contextJson: string, dones: seq<Success>): seq<string>
    decreases |dones|
  {
    [contextJson] + if dones == [] then [] else Contexts(ContextAfter(contextJson, dones[0]), dones[1..])
  }

  lemma Regroup<T>(a: seq<T>, b: seq<T>, c: seq<T>)
    ensures a + (b + c) == a + b + c
  {}

  /** Such a transaction takes no more events. */
  predicate Terminal(status: string) {
    status == "COMPLETED" || status == "FAILED"
  }

  /** The events that are handled: all until one settles at a terminal status. */
  function Accepted(status: string, dones: seq<Success>): seq<Success>
    decreases |dones|
  {
    if dones == [] || Terminal(status) then [] else [dones[0]] + Accepted(dones[0].status, dones[1..])
  }

  /** One event, undisturbed: unless it is refused, the record is marked IN_FLIGHT, then committed. */
  method CommitOne(store: MemoryStateStore, id: string, done: Success)
    requires id in store.transactions
    modifies store
    ensures id in store.transactions
    ensures Terminal(old(store.transactions)[id].status) ==>
      store.transactions == old(store.transactions) && store.Stack(id) == old(store.Stack(id))
    ensures !Terminal(old(store.transactions)[id].status) ==>
      && store.transactions[id] == GoRecord(done.state, ContextAfter(old(store.transactions)[id].contextJson, done), done.status,
                                            old(store.transactions)[id].version + 2)
      && store.Stack(id) == old(store.Stack(id)) + StepOf(old(store.transactions)[id].contextJson, done)
    ensures forall other :: other != id ==> store.Stack(other) == old(store.Stack(other))
  {
    var record := store.transactions[id];
    if Terminal(record.status) { return; }
    var inFlight := record.(status := "IN_FLIGHT", version := record.version + 1);
    var r := store.UpdateTransaction(id, inFlight, record.version);
    r := CommitStep(store, id, inFlight, done);
  }

  /** Events handled one after the other, undisturbed. */
  method CommitAll(store: MemoryStateStore, id: string, dones: seq<Success>)
    requires id in store.transactions
    modifies store
    ensures id in store.transactions
    ensures var record := old(store.transactions)[id]; var accepted := Accepted(record.status, dones);
      && store.Stack(id) == old(store.Stack(id)) + Pushed(record.contextJson, accepted)
      && store.transactions[id].contextJson == LastOf(Contexts(record.contextJson, accepted))
      && store.transactions[id].version == record.version + 2 * |accepted|
      && (accepted != [] ==> store.transactions[id].status == accepted[|accepted| - 1].status)
    ensures forall other :: other != id ==> store.Stack(other) == old(store.Stack(other))
  {
    ghost var first := store.transactions[id];
    ghost var accepted := Accepted(first.status, dones);
    for i := 0 to |dones|
      invariant id in store.transactions
      invariant ToCome(store.transactions[id], store.Stack(id), dones[i..])
        == (old(store.Stack(id)) + Pushed(first.contextJson, accepted), LastOf(Contexts(first.contextJson, accepted)),
            first.version + 2 * |accepted|, LastStatus(first.status, accepted))
      invariant forall other :: other != id ==> store.Stack(other) == old(store.Stack(other))
    {
      assert [dones[i]] + dones[i + 1..] == dones[i..];
      NextToCome(store.transactions[id], store.Stack(id), dones[i], dones[i + 1..]);
      ghost var record, stack := store.transactions[id], store.Stack(id);
      CommitOne(store, id, dones[i]);
      assert Terminal(record.status) ==> store.transactions[id] == record && store.Stack(id) == stack;
    }
    assert dones[|dones|..] == [];
    NothingToCome(store.transactions[id], store.Stack(id));
  }

  lemma NothingToCome(record: GoRecord, stack: seq<Step>)
    ensures ToCome(record, stack, []) == (stack, record.contextJson, record.version, record.status)
  {
    assert stack + [] == stack && Contexts(record.contextJson, []) == [record.contextJson];
  }

  function LastStatus(status: string, dones: seq<Success>): string {
    if dones == [] then status else dones[|dones| - 1].status
  }

  /** The stack, the context, the version and the status when all events to come are handled. */
  ghost function ToCome(record: GoRecord, stack: seq<Step>, dones: seq<Success>): (seq<Step>, string, int, string) {
    var accepted := Accepted(record.status, dones);
    (stack + Pushed(record.contextJson, accepted), LastOf(Contexts(record.contextJson, accepted)),
     record.version + 2 * |accepted|, LastStatus(record.status, accepted))
  }

  lemma NextToCome(record: GoRecord, stack: seq<Step>, done: Success, rest: seq<Success>)
    ensures Terminal(record.status) ==> ToCome(record, stack, [done] + rest) == ToCome(record, stack, rest)
    ensures !Terminal(record.status) ==>
      ToCome(record, stack, [done] + rest)
        == ToCome(GoRecord(done.state, ContextAfter(record.contextJson, done), done.status, record.version + 2),
                  stack + StepOf(record.contextJson, done), rest)
  {
    assert ([done] + rest)[0] == done && ([done] + rest)[1..] == rest;
    if !Terminal(record.status) {
      var accepted := Accepted(done.status, rest);
      var next := ContextAfter(record.contextJson, done);
      assert Accepted(record.status, [done] + rest) == [done] + accepted;
      assert ([done] + accepted)[1..] == accepted;
      Regroup(stack, StepOf(record.contextJson, done), Pushed(next, accepted));
    }
  }

  function LastOf(contexts: seq<string>): string {
    if contexts == [] then "" else contexts[|contexts| - 1]
  }

  lemma {:induction false} PushedIsCommitted(registered: set<string>, contextJson: string, dones: seq<Success>)
    requires "" !in registered && forall i :: 0 <= i < |dones| ==> dones[i].compensateHandler in registered
    ensures Committed(registered, Pushed(contextJson, dones), Contexts(contextJson, dones))
    decreases |dones|
  {
    if dones != [] {
      var next := ContextAfter(contextJson, dones[0]);
      PushedIsCommitted(registered, next, dones[1..]);
      assert Pushed(contextJson, dones) == [Step(dones[0].name, dones[0].compensateHandler, contextJson)] + Pushed(next, dones[1..]);
    }
  }

  /** A context is empty text exactly when the last one returned up to there could not be marshalled,
      or was empty text itself; without any, when the first one was. */
  lemma {:induction false} EmptyContextIff(contextJson: string, dones: seq<Success>, i: nat)
    requires i <= |dones|
    ensures |Contexts(contextJson, dones)| == |dones| + 1
    ensures Contexts(contextJson, dones)[i] == "" <==>
      || (contextJson == "" && forall j :: 0 <= j < i ==> !dones[j].updated)
      || exists j :: 0 <= j < i && dones[j].updated && (dones[j].marshalled.None? || dones[j].marshalled == Some(""))
                     && forall k :: j < k < i ==> !dones[k].updated
    decreases |dones|
  {
    if dones != [] {
      var next := ContextAfter(contextJson, dones[0]);
      var rest := dones[1..];
      EmptyContextIff(next, rest, if i > 0 then i - 1 else 0);
      if i > 0 {
        assert Contexts(contextJson, dones)[i] == Contexts(next, rest)[i - 1];
        assert forall j :: 0 < j < i ==> dones[j] == rest[j - 1];
        assert forall j :: 0 <= j < i - 1 ==> rest[j] == dones[j + 1];
      }
    }
  }

  /** Main result: a rollback after committed steps that are all compensable restores the text of the
      first context exactly when that was not empty, or none ever was. */
  lemma RollbackUndoesStepsIff(registered: set<string>, contextJson: string, dones: seq<Success>)
    requires "" !in registered && forall i :: 0 <= i < |dones| ==> dones[i].compensateHandler in registered
    ensures RolledBack(registered, Pushed(contextJson, dones), LastOf(Contexts(contextJson, dones))) == contextJson
      <==> contextJson != "" || forall i :: 0 <= i < |Contexts(contextJson, dones)| ==> Contexts(contextJson, dones)[i] == ""
  {
    PushedIsCommitted(registered, contextJson, dones);
    RollbackUndoesIff(registered, Pushed(contextJson, dones), Contexts(contextJson, dones));
  }

  /** A first context that is empty text, and one step that left another one: the rollback keeps it. */
  lemma EmptyContextIsLost(state: StateValue)
    ensures var dones := [Success("go", "undo", true, Some("{}"), state, "IDLE")];
      && Pushed("", dones) == [Step("go", "undo", "")] && LastOf(Contexts("", dones)) == "{}"
      && RolledBack({"undo"}, Pushed("", dones), "{}") == "{}"
  {
    var dones := [Success("go", "undo", true, Some("{}"), state, "IDLE")];
    assert dones[1..] == [] && Contexts("", dones) == ["", "{}"];
    var stack := Pushed("", dones);
    assert stack[..0] == [] && !Applies({"undo"}, stack[0]);
    assert RolledBack({"undo"}, [], "{}") == "{}";
  }
}
