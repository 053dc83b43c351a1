# Verification model of the durable statechart engine

This project models the TypeScript SDK (and two parts of the Go SDK) in Dafny and proves what the
engine is for. `dafny verify dfyconfig.toml` checks all of it.

## What is modelled

1. **Statechart engine.** `Machines` and `Configurations` hold the machine tree and the state value,
   with *well-formed* configurations: one active child in a compound node, exactly all regions, in
   order, in a parallel one. `Entry`, `Transitions`, `Leaves`, `Engine`, `Matching`, `Broadcast` and
   `Completion` state what the engine does as functions and prove the main results; `EngineLoops`
   has the source's loops as methods, proved against those functions. `Arrivals` says which states are
   active after any safe transition, and `DocumentOrder` in which order nodes are entered, left,
   matched and completed; both show that there is only one such result. The two views of a
   configuration, as a tree and as a list of leaf paths, are proved to agree, and `StringScans`
   proves that the source's tests on dotted strings are those on key sequences. `Documented` and
   `EngineLimits` say exactly when the engine does what its documentation says, with concrete
   machines (`SmallMachines`) on which it does not.
2. **Validation.** `Validation` and `ValidationLoops`: which definitions are accepted, and what
   acceptance guarantees.
3. **Durable transitions.** `Stores` has one abstract store and the SQLite driver as a class;
   `MongoStores` has the Mongo driver as a class and its split read and write under interleaving.
   `Calls` says what each version-checked update writes, `CallLoops` is a whole call as it runs, and
   `Turns` follows the configuration through the matches and the cascade of one call. `Traces` says
   which effects a call queues, by the nodes that each of its transitions leaves and enters. `Protocol`
   interleaves the
   atomic store operations and compensator calls of any number of transition calls, recovery sweeps
   and cleanups on one transaction. `ProtocolLaws` has the results: one chain of commits,
   serializability, and exactly when every record is sound; `LocalRuns` derives soundness from
   conditions on the machine and on returned targets. `Commits` describes the record that each update
   leaves, field by field, and `Statuses` the status in which it finds one.
4. **Saga.** `Saga`: unwinding as a loop over the store, and crashes between the call and the mark
   of a compensation; `Unwinders` proves the same of the unwinding workers of `Protocol`.
   `Unwindings` and `Gathering`: what an unwinding has called, and what a call has stored, when it
   ends. `Rollbacks`: forward steps and their rollback together. `Restarts`: what a sweep leaves, and
   a second one after a crash, with runs that lose a context in `LostContexts`. `Compensations`: what
   COMPENSATED means under every interleaving.
5. **Effects.** `EffectChains`: nested effects and effect-triggered transitions with the depth and
   revision maps, and the tree of calls that a run of effects makes.
6. **Resilience.** `Breakers`, `Retries`, `Pipelines`, `Policies`.
7. **Go.** `GoStates` (the printed key of a state value) and `GoSagas` (memory store, the push of a
   step and its commit, and rollback).

Handlers are arbitrary functions or arbitrary returned values; hooks only observe. The clock and
random numbers are parameters. A crash is a worker that takes no further step.

## Assumptions that are stated in the results

- State keys are non-empty and hold no dot, and a node's key and path are those it is stored under.
  Paths are sequences of keys; `DotPaths` and `StringScans` relate them to strings.
- *Region-local target*: every parallel node above the target is also above the source, through the
  same region, and the target is not a leaf that is itself a region.
- *Readable regions*: a parallel node that the scan for active leaves enters as a map of children, the
  root or a region of a parallel child, has no leaf as a region. The scan misreads a configuration
  exactly when such a node is active (`Engine.ScanOfMachineIff`); everywhere else leaf regions are
  covered.
- `LocalRuns.EveryRecord` asks of the machine that no event is handled in two regions of which one
  handler leaves the parallel state, and that `onDone` targets are region-local;
  `ProtocolLaws.EveryRecordIff` asks nothing of any target.
- The record invariants are about machines with a compound root and a leaf `error`.
- A deleted transaction id is not used again.
- The results on rollbacks are about runs in which a called compensator returns what a fixed handler
  function says, and in which a worker that was overtaken while it unwinds (another one has changed
  the record since) takes no further step on the stack, which the source does not prevent. When no
  unwinding is overtaken, that is so by itself (`Unwindings.FinishedIsAnswered`).
- The effects result on returned records asks that no handler swallows the exception of a call that
  had marked its record before it threw. Such a call changes the record without a new revision.

## Where the code and its documentation differ

The model follows the code.

- `spec/SPECIFICATION.md:53` says that exit effects run bottom-up. With several active leaves below
  the exit branch, a shared ancestor is exited before the second region: exactly when, in
  `EngineLimits.ExitsAreBottomUpIff`; an input, in `EngineLimits.ParentBeforeSecondRegion`.
- `spec/SPECIFICATION.md:57-58` says that `onDone` of a compound state is evaluated when a final child
  is entered, and that of a parallel state when all regions are final. The code takes a compound
  container as done when its one active leaf is final at any depth, and sees a region as final only
  if it is a leaf or its active child is one: exactly when they agree, in
  `Documented.CompoundDoneIff` and `Documented.ParallelDoneIff`; inputs, in
  `Documented.DoneBelowTheChild` and `Documented.RegionDoneTooDeep`.
- `spec/SPECIFICATION.md:101` says COMPLETED means that the root reached a final state. The code
  requires every active leaf to be final, at any depth: `Documented.CompletedIff`, with the input of
  `Documented.DoneBelowTheChild`.
- A broadcast whose transitions are all legal can leave a configuration that is not well formed: a
  match that leaves the parallel state is followed by one that brings a single region back
  (`EngineLimits.LeavingBreaksTheRest`). `Turns.CallIsWellFormedIff` has the exact guard, and
  `Turns.CascadeIsWellFormedIff` the one for `onDone` targets, which can do the same as
  `EngineLimits.OneRegionIsNotEnough`.
- The implicit `error` state is reachable from everywhere, but with a parallel root going there does
  not give a well-formed configuration (`EngineLimits.ErrorBreaksParallelRoot`).
- Merging decorator policies copies explicitly undefined properties, which the normalization skips:
  `Policies.MergeIsLayeringIff` gives the exact condition under which the two agree.
- A compensated context is stored only by the last update. A crash after the last mark loses it:
  exactly when, in `Restarts.RestartIff` and `Saga.RestartRestoresIff`; a run, in
  `LostContexts.SecondSweepLosesIt`. A sweep that recovers a call which failed part way starts from
  the stored context: `Restarts.InterruptedRecoveryIff`; a run, in `LostContexts.SweepOvershoots`.
- In Go the saga step is pushed before the version-checked update, so a stale update leaves the step
  of a transition that never committed (`GoSagas.CommitStep`), and a context that cannot be
  marshalled is recorded as empty text, which a rollback ignores (`GoSagas.EmptyContextIff`,
  `GoSagas.RollbackUndoesStepsIff`; an input, in `GoSagas.EmptyContextIsLost`).

## Model

| member | source | states |
|---|---|---|
| DotPaths.SplitJoin | sdks/typescript/src/engine/statechart.ts:14-31 | Splitting a dotted path gives back the keys it was joined from. |
| DotPaths.PrefixTest | sdks/typescript/src/engine/statechart.ts:143-170 | The string test `=== p or startsWith(p + ".")` on joined paths is exactly the prefix order on key sequences. |
| StringScans.StringScanIs | sdks/typescript/src/engine/statechart.ts:447-513 | On dotted strings, the source's test whether a container is done holds exactly when the scan on key sequences does; active leaves of a machine with such keys qualify (`StringScans.LeavesAreKeyed`). |
| StringScans.ExitScanIs | sdks/typescript/src/engine/statechart.ts:143-170 | On dotted strings, the exit scan with its visited set gives the joined paths of the exit order. |
| Validation.ResolvedExists | sdks/typescript/src/definition/ir.ts:87-131 | A reference resolves only to an existing state, whose path is non-empty and made of keys. |
| Validation.SiblingFirst | sdks/typescript/src/definition/ir.ts:112-130 | A plain reference resolves in the container of its source first, and from the root otherwise. |
| Validation.RootReferenceResolves | sdks/typescript/src/definition/ir.ts:127-130 | A reference that resolves from the root resolves from every state. |
| Validation.AbsoluteReference | sdks/typescript/src/definition/ir.ts:107-114 | A reference that starts with `#` names the same state from every source, with or without the machine's id in front. |
| Validation.AcceptedMachineIsSound | sdks/typescript/src/definition/ir.ts:137-308 | For every accepted definition: the tree is sound, each edge target and `onFail` target resolves from its own source, and the default `onFail` target and the built-in `error` resolve from every source. |
| Validation.AcceptedIff | sdks/typescript/src/definition/ir.ts:137-308 | A definition has no issue if and only if: its id is made of the allowed characters, the chain depth is at least 1, it has a state, `initial` is there or not as its kind asks, and every state at every depth has the shape of its kind and references that resolve from it. |
| Validation.AcceptedInitialState | sdks/typescript/src/engine/statechart.ts:66-87 | Every accepted definition has an initial configuration. It is well formed; its active nodes are exactly those reached from the root by initial children and live regions; its effects are their entry lists, each once and after those of its parent. |
| ValidationLoops.LookupByDotPath | sdks/typescript/src/definition/ir.ts:92-104 | The segment loop finds a state exactly when the tree has one at that path. |
| ValidationLoops.ResolveTargetStatePath | sdks/typescript/src/definition/ir.ts:87-131 | The procedure with its lookups computes the resolution that the soundness results are about. |
| ValidationLoops.Validator.ValidateNode | sdks/typescript/src/definition/ir.ts:244-294 | The recursive visit appends exactly the issues of the subtree, in order, after those found before. |
| ValidationLoops.FinalizeAndValidate | sdks/typescript/src/definition/ir.ts:137-308 | Accepts exactly when there is no issue, and then returns the definition with the injected `error` state. |
| Entry.EnterIsWellFormed | sdks/typescript/src/engine/statechart.ts:33-64 | Entering a subtree yields a well-formed configuration of it. |
| Entry.EnteredAreActive | sdks/typescript/src/engine/statechart.ts:33-64 | The nodes entered are exactly the nodes active in the resulting configuration. |
| Entry.EnterEffects | sdks/typescript/src/engine/statechart.ts:33-64 | The entry effects are the entry lists of the entered nodes, in that order. |
| Entry.EnteredInOrder | sdks/typescript/src/engine/statechart.ts:33-64 | No node is entered twice and every node is entered after its parent. |
| Entry.EnteredFollow | sdks/typescript/src/engine/statechart.ts:33-64 | A node is entered exactly when every compound node above it, inside the subtree, has the next one as its `initial`, and every parallel one has it as a region. |
| Entry.InitialFollows | sdks/typescript/src/engine/statechart.ts:66-87 | The same for the whole machine, on every sound tree: which nodes are active at the start, and which entry lists are run in which order. |
| DocumentOrder.EnteredInDocOrder | sdks/typescript/src/engine/statechart.ts:33-64 | Nodes are entered in document order: an ancestor first, and otherwise what is declared earlier where the two paths part. |
| DocumentOrder.DocOrderIsUnique | sdks/typescript/src/engine/statechart.ts:33-64 | Only one list in document order has given members, so members and order determine what is entered. |
| Configurations.ActiveDetermines | sdks/typescript/src/types.ts:3 | Two well-formed configurations with the same active nodes are equal. |
| Leaves.ScanIsTree | sdks/typescript/src/engine/statechart.ts:93-129 | For every configuration without a misread region, the path scan for active leaves returns exactly the leaves of the configuration tree, in order. |
| Leaves.ScanIff | sdks/typescript/src/engine/statechart.ts:93-129 | Below any node, the scan returns the leaves of the tree if and only if no active node that it enters as a map of children is parallel with a leaf for a region. |
| Engine.ScanOfMachineIff | sdks/typescript/src/engine/statechart.ts:93-129 | The same for every whole running configuration of a machine. |
| Leaves.ActiveLeadsToLeaf | sdks/typescript/src/engine/statechart.ts:93-129 | A node is active exactly when its path is a prefix of an active leaf. |
| DocumentOrder.LeavesInDocOrder | sdks/typescript/src/engine/statechart.ts:93-129 | The active leaves are listed in document order. |
| Leaves.ExitOrderIsUpward | sdks/typescript/src/engine/statechart.ts:143-170 | Each exited node is listed once; it is an active leaf or follows directly after the first of its children. |
| Leaves.ExitOrderMembers | sdks/typescript/src/engine/statechart.ts:143-170 | The exited nodes are exactly the prefixes of active leaves at or below the exit branch. |
| DocumentOrder.ExitsInDocOrder | sdks/typescript/src/engine/statechart.ts:143-170 | Of two exited nodes, of which none is above the other, the one declared earlier is exited first. |
| DocumentOrder.LeavingIsUnique | sdks/typescript/src/engine/statechart.ts:143-170 | With that order, and every inner node directly after its first child, the exited nodes determine the order of exits. |
| Transitions.NextIsWellFormedIff | sdks/typescript/src/engine/statechart.ts:251-440 | For any existing source, active or already left, and any existing target of any sound machine, the next configuration is well formed if and only if the target meets a guard: the common ancestor is active, or was left for a leaf; each parallel ancestor of the target is active or has a single region; the target is no bare region. |
| Transitions.NextActive | sdks/typescript/src/engine/statechart.ts:251-440 | For a region-local target the active set becomes (old minus everything at or below the source branch under the common ancestor) plus the entered nodes; everything outside that branch is unchanged. |
| Arrivals.NextIsTarget | sdks/typescript/src/engine/statechart.ts:251-440 | For every safe target and every existing source, active or already left, region-local or not: afterwards the target and all above it are active, below it exactly its initial descendants, and a state that parts from the path to the target exactly if it was active and parts at a parallel state. |
| Arrivals.LandingIsUnique | sdks/typescript/src/engine/statechart.ts:251-440 | Only one well-formed configuration is like that, so the transition is determined by its target and the configuration before. |
| Engine.LocalIsSafe | sdks/typescript/src/engine/statechart.ts:251-366 | A region-local target, with an active common ancestor, always meets that guard. |
| Engine.LocalIsSafeIff | sdks/typescript/src/engine/statechart.ts:251-366 | A region-local target from any source meets the guard if and only if the common ancestor is active, or it was left for a leaf and every inactive parallel ancestor of the target has a single region. |
| Engine.TransitionLaw | sdks/typescript/src/engine/statechart.ts:134-440 | One transition to a region-local target: well-formed result, active set = old minus exited plus entered, each exit list exactly once, entry lists parents first, all in terms of the effect lists returned. |
| EngineLimits.ExitsAreBottomUpIff | sdks/typescript/src/engine/statechart.ts:134-173 | The exit order puts every node after all its exited descendants if and only if at most one active leaf lies below the exit branch. |
| EngineLimits.ParentBeforeSecondRegion | sdks/typescript/src/engine/statechart.ts:134-173 | An accepted machine on which leaving a parallel state exits it before its second region. |
| EngineLimits.ErrorBreaksParallelRoot | sdks/typescript/src/engine/statechart.ts:330-342 | With a parallel root, going to `error` never yields a well-formed configuration. |
| EngineLimits.LeafRegionTargetBreaks | sdks/typescript/src/engine/statechart.ts:396-419 | Targeting an atomic region directly under a parallel common ancestor destroys the region map. |
| EngineLimits.OneRegionIsNotEnough | sdks/typescript/src/engine/statechart.ts:311-325 | A concrete machine where naming a state inside one region of an inactive parallel leaves its other region out. |
| EngineLimits.LeavingBreaksTheRest | sdks/typescript/src/runtime/actor.ts:684-755 | An accepted machine and a broadcast of region-local targets whose second step, after the first has left the parallel state, breaks the configuration. |
| EngineLoops.FindNode | sdks/typescript/src/engine/statechart.ts:14-31 | The segment loop returns the node at the path. |
| EngineLoops.GetActiveLeafPaths | sdks/typescript/src/engine/statechart.ts:93-129 | The nested loops return the leaf scan that is proved equal to the tree view. |
| EngineLoops.CollectBottomUpExitEffects | sdks/typescript/src/engine/statechart.ts:134-173 | The loops with the visited set return the exit lists of the exit order, each once. |
| EngineLoops.CommonLength | sdks/typescript/src/engine/statechart.ts:269-281 | The loop finds the least common ancestor of source and target. |
| EngineLoops.BuildBranch | sdks/typescript/src/engine/statechart.ts:311-328 | The loop from the target up to the common ancestor builds the branch that is put back. |
| EngineLoops.ExtractSubStateObject | sdks/typescript/src/engine/statechart.ts:368-383 | The loop returns the sub-configuration at the path, if it is an object. |
| EngineLoops.ApplyTargetTransition | sdks/typescript/src/engine/statechart.ts:251-366 | The imperative transition computes the next configuration, exits and entries of the transition law. |
| EngineLoops.FindPending | sdks/typescript/src/engine/statechart.ts:447-496 | The scan over collected and sorted containers returns the pending completion of the specification. |
| EngineLoops.RunCascade | sdks/typescript/src/runtime/actor.ts:892-937 | The cascade loop with its counter returns the value, the number of transitions and the stop reason of the specified cascade, and its effects, with those of each `onDone` handler before those of its transition. |
| EngineLoops.GetAvailableEvents | sdks/typescript/src/engine/statechart.ts:548-569 | The loops collect the specified set of available events without repetition. |
| Matching.MatchesAreInnermost | sdks/typescript/src/engine/statechart.ts:179-245 | A match is returned if and only if its source is active, handles the event, and no active descendant handles it. |
| Matching.NoMatchAboveAnother | sdks/typescript/src/engine/statechart.ts:179-245 | No matched source is an ancestor of another. |
| Matching.SearchDistinct | sdks/typescript/src/engine/statechart.ts:179-245 | No source is matched twice. |
| DocumentOrder.MatchesInDocOrder | sdks/typescript/src/engine/statechart.ts:179-245 | The matches of an event come in document order. |
| Matching.AvailableIffMatched | sdks/typescript/src/engine/statechart.ts:548-569 | An event is available exactly when it has a match. |
| Broadcast.OrderDoesNotMatter | sdks/typescript/src/runtime/actor.ts:684-733 | Applying the steps of a broadcast in any order yields the same configuration. |
| Broadcast.ActiveAtItsTurn | sdks/typescript/src/runtime/actor.ts:684-733 | Each source is still active when its step is applied. |
| Broadcast.BroadcastIsSafe | sdks/typescript/src/runtime/actor.ts:684-733 | For resolved targets that share all parallel ancestors and regions with their source and are no leaf region: each step applies, and the final configuration is well formed. |
| Completion.ScanIsComplete | sdks/typescript/src/engine/statechart.ts:447-513 | The leaf-prefix scan holds of a container exactly when it is complete by recursion on the configuration tree. |
| Completion.PendingIsDeepestComplete | sdks/typescript/src/engine/statechart.ts:447-496 | Nothing is pending exactly when no active container with `onDone` is complete; otherwise a complete one of greatest depth is returned. |
| DocumentOrder.PendingIsFirst | sdks/typescript/src/engine/statechart.ts:447-496 | Among the deepest complete containers, the first in document order is returned. |
| Completion.CascadeIsSafe | sdks/typescript/src/runtime/actor.ts:892-937 | The cascade keeps the configuration well formed and stops only when nothing is pending, at a deepest complete container whose `onDone` has no target, or after exactly its limit of transitions. |
| Completion.SettledStatusMeaning | sdks/typescript/src/engine/statechart.ts:518-542 | COMPENSATED exactly when compensated; otherwise FAILED exactly in `error`, COMPLETED exactly when every active leaf is final, else IDLE. |
| Documented.CompoundDoneIff | sdks/typescript/src/engine/statechart.ts:470-513 | The code asks that a single final leaf, at any depth, is all that is active below an active compound container; the document asks that its own active child is final. For a leaf as active child both say the same; for a container as active child the document says no, so they agree exactly when the code says no as well. |
| Documented.ParallelDoneIff | sdks/typescript/src/engine/statechart.ts:470-513 | The code takes a region as complete if it is a final leaf or its active child is one; the document asks it by recursion. On regions of these two shapes both agree, whatever is final; a complete region of any other shape (parallel, or complete deeper down) is what the code does not see. |
| Documented.ParallelRegionNeverDone | sdks/typescript/src/engine/statechart.ts:498-513 | A parallel container with a parallel region never counts as done. |
| Documented.CompletedIff | sdks/typescript/src/engine/statechart.ts:518-542 | For a compound root the code asks that all active leaves are final, the document that the root's active child is. With a leaf as active child both say the same; with a container they agree exactly when some active leaf is not final. |
| Documented.DoneBelowTheChild | sdks/typescript/src/engine/statechart.ts:470-542 | An accepted machine on which `onDone` is pending and the transaction COMPLETED although neither own active child is final. |
| Documented.RegionDoneTooDeep | sdks/typescript/src/engine/statechart.ts:498-513 | An accepted machine on which `onDone` of a parallel state is not pending although its only region is complete. |
| Stores.UncompensatedAre | sdks/typescript/src/store/sqlite-store.ts:260-282 | The uncompensated entries are all pending ones, newest first. |
| Stores.QueryIsUncompensated | sdks/typescript/src/store/sqlite-store.ts:260-282 | Filtering and sorting a numbered stack downwards yields exactly the uncompensated entries, newest first. |
| Stores.SqliteStore.CreateTransaction | sdks/typescript/src/store/sqlite-store.ts:90-117 | Creates the record with an empty stack; an existing id is refused and nothing changes. |
| Stores.SqliteStore.GetTransaction | sdks/typescript/src/store/sqlite-store.ts:119-165 | Returns the record the abstract store holds, with its whole compensation stack, newest entry first, or none. |
| Stores.SqliteStore.UpdateTransaction | sdks/typescript/src/store/sqlite-store.ts:167-258 | Succeeds exactly on the expected version; then the patch, the version bump and the append happen together as the abstract update, and otherwise nothing changes. |
| Stores.SqliteStore.InsertCompensations | sdks/typescript/src/store/sqlite-store.ts:222-249 | The insert loop numbers the new rows from the greatest number plus one, and touches no other transaction. |
| Stores.SqliteStore.GetUncompensatedStack | sdks/typescript/src/store/sqlite-store.ts:260-282 | Returns the uncompensated entries of the abstract store. |
| Stores.SqliteStore.MarkCompensationExecuted | sdks/typescript/src/store/sqlite-store.ts:284-295 | Marks exactly the entry with that number, if there is one. |
| Stores.SqliteStore.DeleteTransaction | sdks/typescript/src/store/sqlite-store.ts:395-403 | Removes the record and its stack, and nothing else. |
| MongoStores.MongoStore.UpdateTransaction | sdks/typescript/src/store/mongodb-store.ts:147-209 | Undisturbed, the read and the compare-and-set write are the same abstract update as in the SQL driver. |
| MongoStores.MongoStore.GetUncompensatedStack | sdks/typescript/src/store/mongodb-store.ts:211-221 | Returns the uncompensated entries of the abstract store. |
| MongoStores.MongoStore.MarkCompensationExecuted | sdks/typescript/src/store/mongodb-store.ts:223-233 | Marks exactly the entry with that number, if there is one. |
| MongoStores.WriteIsUpdate | sdks/typescript/src/store/mongodb-store.ts:165-206 | With a base sequence number that was read for this version, the conditional write is the abstract update. |
| MongoStores.UpdateInterleaved | sdks/typescript/src/store/mongodb-store.ts:147-233 | Each atomic operation, among any number of writers between read and write, keeps the numbering and does what the abstract store does. |
| MongoStores.EveryInterleaving | sdks/typescript/src/store/mongodb-store.ts:147-233 | After any interleaving every stack is numbered 1..n with `nextCompStepSeq` n + 1, and the collection equals what the abstract store holds. |
| CallLoops.MatchLoop | sdks/typescript/src/runtime/actor.ts:684-757 | The match loop ends after the last match or at the first failed attempt, with the working state, context and compensations that the successful attempts define and, without a failure, the effects that `Traces.SuccessIsTraced` describes. |
| CallLoops.ApplyMatch | sdks/typescript/src/runtime/actor.ts:712-755 | A successful attempt moves the state, takes the handler context, records the state and context from before the step, and collects the effects of its step in the order that `Traces.SuccessIsTraced` describes. |
| CallLoops.EntriesAreSnapshots | sdks/typescript/src/runtime/actor.ts:690-755 | A call leaves one entry for each match that has a compensator, in the order of the matches; the entry of step i holds the state and the context from before it. |
| Traces.SuccessIsTraced | sdks/typescript/src/runtime/actor.ts:684-937 | The effects of a successful call, if its targets are safe where they are taken: for each match in order the exit lists of the nodes left at its own working configuration, then the edge's effects and those of the handler, then the entry lists of the nodes entered, or, without a target, the edge's and the handler's; then the same for each `onDone` of the cascade, with what its handler returned first. The cascade takes the first deepest complete container each time, and ends after 20 steps, at a step without a target, or when nothing is complete. Nodes left: the active ones below the branch of the source. Nodes entered: those down to the target and its initial descendants. |
| Traces.FallbackIsTraced | sdks/typescript/src/runtime/actor.ts:757-833 | The effects of a failed call: the exit lists and then the entry lists of its fallback transition, taken from where the earlier attempts led, and nothing of those attempts. |
| CallLoops.UnwoundIsLatest | sdks/typescript/src/runtime/actor.ts:1024-1060 | The context after an unwinding is the last one that a compensator returned, or the one before. |
| CallLoops.FailCall | sdks/typescript/src/runtime/actor.ts:757-833 | The failure branch stores collected compensations, unwinds if requested and settles at the fallback, by exactly those version-checked updates; its effects are those of the fallback alone; if the fallback does not resolve, state and context are untouched. |
| CallLoops.ExecuteTransition | sdks/typescript/src/runtime/actor.ts:614-956 | A whole undisturbed call leaves the record that its protocol updates leave, and returns the effects of `Traces.SuccessIsTraced` or `Traces.FallbackIsTraced` along the way to the stored state; each `onDone` step asks one handler; a call that throws leaves the state and the context as they were, and other transactions are never touched. |
| Protocol.PerformKeeps | sdks/typescript/src/runtime/actor.ts:545-1013 | Every atomic step of every transition call, sweep and cleanup keeps the chain of commits, and every waiting worker owns all updates since its snapshot. |
| ProtocolLaws.SingleChain | sdks/typescript/src/runtime/actor.ts:652-956 | Under any interleaving the commits form one chain: each patches the record before it, computed from the record that stood before its worker's own run of updates; the version counts the updates; no compensation entry is lost or duplicated. |
| ProtocolLaws.NothingOverwritten | sdks/typescript/src/runtime/actor.ts:757-956 | A commit that follows a state-changing commit was computed from a snapshot taken at or after it. |
| ProtocolLaws.Serializable | sdks/typescript/src/runtime/actor.ts:652-956 | Every concurrent run is serializable: the record equals the one left by the committed updates made alone, one after the other. |
| Turns.CallIsWellFormedIff | sdks/typescript/src/runtime/actor.ts:684-755 | Over the matches of one call, with any targets: every configuration after a turn is well formed if and only if every turn's target meets the guard of `Transitions.NextIsWellFormedIff` where it is applied. |
| Turns.LocalCallIsSafe | sdks/typescript/src/runtime/actor.ts:684-755 | If targets are region-local, and each but the last stays in every region of its source, every turn of the call meets the guard. |
| Turns.CascadeIsWellFormedIff | sdks/typescript/src/runtime/actor.ts:892-937 | Over the cascade of one call, with any `onDone` targets: every configuration is well formed if and only if each target that is taken meets the guard where it is taken. |
| ProtocolLaws.StartIsOk | sdks/typescript/src/runtime/actor.ts:545-592 | The first record has exactly the nodes active that following `initial` reaches, the given context, no step and no lease; it is FAILED exactly in `error`, COMPLETED exactly when everything is final elsewhere, and IDLE otherwise; and it meets the record invariant. |
| ProtocolLaws.EveryRecordIff | sdks/typescript/src/runtime/actor.ts:545-1013 | In every run from that first record, on any machine with a compound root, a leaf `error` and readable regions, whatever its edge, `onFail` and `onDone` targets: every record committed, and every configuration between the matches and in the cascade of its call, is sound if and only if every call in the log met the guard at each turn and at each `onDone` target. Sound: well-formed state, version = 1 + updates, IN_FLIGHT has an active step, settled statuses have neither step nor lease, COMPLETED means all active leaves final, FAILED means `error`. |
| LocalRuns.EveryRecord | sdks/typescript/src/runtime/actor.ts:545-1013 | If the machine's edges and `onDone` targets, the targets returned by handlers and the fallbacks are region-local, and no event is handled in two regions of which one handler leaves the parallel state, every record reachable from that first record is sound. |
| Commits.EveryCommit | sdks/typescript/src/runtime/actor.ts:614-1302 | In every run, each update leaves a fully described record. MARK_FAIL: `error`, FAILED, the context it found, no step, no lease. COMPENSATE: COMPENSATING with all else kept, and at its end `error`, COMPENSATED and the last context its handlers returned. CONTINUE: IDLE, no step, no lease, state and context kept. Begin: IN_FLIGHT with the event and a lease. Appending changes only the version. The end of a call: no step, no lease, and the last context returned. |
| Commits.EveryEnd | sdks/typescript/src/engine/statechart.ts:518-542 | In every guarded run, the status that ends a call is COMPENSATED if and only if the failed step asked for compensation; otherwise FAILED if and only if the state left is `error`, COMPLETED if and only if every active leaf is final in another state, and IDLE in all other cases. |
| Commits.EverySweep | sdks/typescript/src/runtime/actor.ts:1222-1288 | In every run, what the three modes of a sweep do to the record that it read, if that still stands, and nothing otherwise; CONTINUE releases the lock and calls again the very event that the interrupted call had stored. |
| Commits.StepWasBegun | sdks/typescript/src/runtime/actor.ts:652-668 | A record's active step was stored by the update that put it in flight, and since then only compensations were appended or COMPENSATING was set. |
| Statuses.EveryUpdateFollows | sdks/typescript/src/runtime/actor.ts:614-1302 | In every run: a call is put in flight only from another status, and its success, its stored compensations and its plain failure find the record IN_FLIGHT; unwinding starts from IN_FLIGHT or COMPENSATING and ends from COMPENSATING; MARK_FAIL finds one of these two. |
| Compensations.PerformIsSafe | sdks/typescript/src/runtime/actor.ts:614-1302 | Every atomic step keeps: an unwinding worker that still holds the record has every pending entry on its list, and COMPENSATED records have none pending. |
| Compensations.CompensatedMeansUnwound | sdks/typescript/src/runtime/actor.ts:768-833 | Whatever calls, sweeps and crashes are interleaved, a record that says COMPENSATED has no entry left to compensate. |
| Saga.UnwindCompensationStack | sdks/typescript/src/runtime/actor.ts:1015-1063 | Calls the compensators newest first, marks every entry, returns the folded context and the count, and changes nothing else in the store. |
| Saga.RollbackRestores | sdks/typescript/src/runtime/actor.ts:1015-1063 | If each compensator inverts its step, unwinding restores the context from before the first step. |
| Unwindings.UnwindingIsWhole | sdks/typescript/src/runtime/actor.ts:1015-1063 | In every run, the update that ends an unwinding, the first one or one after a finished one, carries exactly what the compensators returned for the entries added since, newest first, starting from the working context of a failed call or the stored context of a recovery. |
| Unwindings.FinishedIsAnswered | sdks/typescript/src/runtime/actor.ts:1015-1063 | In a run in which every unwinding that is followed by another update was finished by its own worker, no overtaken worker acts on the stack. |
| Gathering.EveryFailureGathered | sdks/typescript/src/runtime/actor.ts:757-833 | In every run, a call that ends in failure has stored the compensations of its successful attempts exactly once before, and a recovery none. |
| Rollbacks.ForwardFits | sdks/typescript/src/runtime/actor.ts:690-833 | Over any log of forward updates (compensable calls, failed calls that only fall back, also part way, MARK_FAIL, marking and unlocking), the entries added hold the contexts from before their steps, and the record the context after the last. |
| Rollbacks.RollbackUndoesFailure | sdks/typescript/src/runtime/actor.ts:757-833 | After any interleaving of forward updates, an unwinding of a failed call, which may have served matches before it failed, leaves the context of the record that the last finished unwinding left, or the one the transaction was started with, if each compensator inverts its own step. |
| Rollbacks.RollbackUndoesRecovery | sdks/typescript/src/runtime/actor.ts:1199-1302 | The same for the unwinding of a recovery sweep. |
| Restarts.SweepLeaves | sdks/typescript/src/runtime/actor.ts:1235-1258 | In any run that a sweep has found stuck, the COMPENSATE mode leaves what the compensators make of the stored context, entry by entry. |
| Restarts.RestartLeaves | sdks/typescript/src/runtime/actor.ts:1235-1258 | When that sweep crashes after n entries, a second sweep of the same run starts again from the stored context with the entries left. |
| Restarts.RestartIff | sdks/typescript/src/runtime/actor.ts:1235-1258 | The second sweep restores the first context, whatever compensators invert their own steps, if and only if the stored context is the one the first sweep had reached. |
| Restarts.InterruptedRecoveryIff | sdks/typescript/src/runtime/actor.ts:1235-1258 | A sweep that recovers a call which failed part way restores the first context, whatever compensators invert their own steps, if and only if the stored context is the working one. |
| LostContexts.SecondSweepLosesIt | sdks/typescript/src/runtime/actor.ts:1235-1258 | A concrete run of an accepted machine: the sweep alone leaves context 0, but crashed after its only entry, the second sweep leaves 1 as COMPENSATED, although the compensator restores its snapshot. |
| LostContexts.SweepOvershoots | sdks/typescript/src/runtime/actor.ts:1235-1258 | A concrete run of an accepted machine: a call counts to 1 and fails part way, and the sweep counts down from the stored 0 to -1. |
| Saga.RestartRestoresIff | sdks/typescript/src/runtime/actor.ts:1235-1258 | After a crash, a restarted unwinding with snapshot-restoring compensators ends in the first context if and only if an entry was left to compensate (or the context never differed). |
| Saga.EveryUnwinding | sdks/typescript/src/runtime/actor.ts:1015-1063 | Over all crashes and restarts: calls in non-increasing order; a repeated call only after a crash between call and mark; each compensated entry called if it has a handler; a finished unwinding leaves nothing uncompensated. |
| Unwinders.EveryRecoveryInOrder | sdks/typescript/src/runtime/actor.ts:1015-1063 | In every run of the protocol in which one worker at a time unwinds and no step is added: the four properties of `Saga.EveryUnwinding` hold of the whole history of calls and marks. |
| Unwinders.FinishedIsDone | sdks/typescript/src/runtime/actor.ts:1015-1063 | In such a run, when the unwinding worker has nothing left on its list, every entry in the store is compensated. |
| Breakers.StepKeepsValid | sdks/typescript/src/policy/circuit-breaker.ts:30-121 | After every operation the window is the last outcomes recorded since it was cleared, and holds fewer failures than the threshold. |
| Breakers.TripsAtThreshold | sdks/typescript/src/policy/circuit-breaker.ts:95-121 | Outside half-open the breaker trips if and only if a failure brings those outcomes to exactly the threshold; in half-open every failure trips. |
| Breakers.PolicyChangeIff | sdks/typescript/src/policy/circuit-breaker.ts:21-23 | A policy change keeps the invariant if and only if the failures are below the new threshold, the counters are within the new limit, and the window is not cut or too long under the new size. |
| Breakers.WindowCatchesUp | sdks/typescript/src/policy/circuit-breaker.ts:21-23 | After a policy change the window is the last outcomes again once as many outcomes as it holds were recorded, whatever it held. |
| Breakers.RunKeepsValid | sdks/typescript/src/policy/circuit-breaker.ts:30-121 | The window invariant holds after every sequence of operations of overlapping calls. |
| Breakers.NoEarlyStart | sdks/typescript/src/policy/circuit-breaker.ts:38-80 | With a clock that does not go back, no protected call starts earlier than `openDurationMs` after any trip. |
| Breakers.RefusedIff | sdks/typescript/src/policy/circuit-breaker.ts:38-66 | In every run with a clock that does not go back, an admission is refused if and only if the breaker has tripped, has not closed since, and the last trip is less than `openDurationMs` ago or `halfOpenMaxCalls` probes are in flight; every other one starts. |
| Breakers.ClosesIff | sdks/typescript/src/policy/circuit-breaker.ts:82-93 | In every run, the breaker closes exactly at a success while probing that brings the successes since the wait to `halfOpenMaxCalls`. |
| Breakers.TripsIff | sdks/typescript/src/policy/circuit-breaker.ts:95-121 | In every run, it trips exactly at a failure while probing, or one that brings the failures among the last outcomes to the threshold. |
| Breakers.CircuitBreaker.TryStart | sdks/typescript/src/policy/circuit-breaker.ts:49-66 | Admits a call exactly as the step function of `Breakers.RefusedIff` does, and takes its step. |
| Breakers.CircuitBreaker.OnSuccess | sdks/typescript/src/policy/circuit-breaker.ts:82-93 | A success is counted in half-open, and closes the breaker at the limit; otherwise it is recorded. |
| Breakers.CircuitBreaker.OnFailure | sdks/typescript/src/policy/circuit-breaker.ts:95-106 | A failure trips in half-open; otherwise it is recorded and trips at the threshold. |
| Breakers.CircuitBreaker.PushOutcome | sdks/typescript/src/policy/circuit-breaker.ts:108-113 | The shifting loop leaves the last `slidingWindowSize` outcomes. |
| Breakers.CountFailures | sdks/typescript/src/policy/circuit-breaker.ts:102-103 | Counts the failures of a window. |
| Retries.Delay | sdks/typescript/src/policy/retry.ts:4-35 | A delay is never negative and never exceeds `maxDelayMs`. |
| Retries.RawSteps | sdks/typescript/src/policy/retry.ts:13-32 | The first delay is the initial one; each further one is the same, larger by the initial one, or multiplied, by strategy. |
| Retries.DelaysGrow | sdks/typescript/src/policy/retry.ts:4-35 | Without jitter and with a multiplier of at least 1, delays do not shrink. |
| Retries.JitterRange | sdks/typescript/src/policy/retry.ts:24-31 | With jitter a delay lies between the roundings of half the exponential ceiling and of the whole. |
| Retries.DelayIsNearest | sdks/typescript/src/policy/retry.ts:34-34 | A delay is the whole number of milliseconds nearest to the raw one, halves up, or `maxDelayMs` if that is less. |
| Retries.JitterIsEven | sdks/typescript/src/policy/retry.ts:24-31 | The jittered raw delay goes evenly from half of the ceiling at random number 0 to the whole at 1; the ceiling is the exponential delay, at most `maxDelayMs`. |
| Retries.RunWithRetry | sdks/typescript/src/policy/retry.ts:43-78 | The result is that of the first attempt that succeeds, is a validation or open-circuit error, is refused by `retryIf`, or is the last one allowed; each earlier attempt threw a retryable error; the sleep is the sum of the delays between them and at most as many maximal ones. |
| Pipelines.Execute | sdks/typescript/src/policy/pipeline.ts:131-196 | The outcome is that of the last handler call, or of the refused admission; a failure carries the policy's own fallback target, or `error` when that is empty. A disabled breaker is untouched; an enabled one gets one admission and, if that starts, one success, failure or validation report, by the outcome. |
| Policies.MergeIsAssociative | sdks/typescript/src/decorators/metadata.ts:15-49 | Merging partial policies is associative, with absent, undefined and set properties kept apart. |
| Policies.EmptyIsIdentity | sdks/typescript/src/decorators/metadata.ts:15-49 | The empty policy is the identity of merging on both sides. |
| Policies.NormalizeTransitionPolicy | sdks/typescript/src/policy/merger.ts:56-149 | The loop over the four layers computes the layered policy. |
| Policies.EveryLeafFromHighest | sdks/typescript/src/policy/merger.ts:11-149 | Every leaf of the normalized policy is what the highest-precedence layer that sets it says, or, when none does, the default listed there: one attempt, exponential from 100 to 5000 ms by 2.0, breaker off with 5 of 10, 30000 ms and 1 probe, no compensation, fallback `error`, benchmarks on. |
| Policies.MergeIsLayeringIff | sdks/typescript/src/decorators/metadata.ts:15-49 | Replacing two adjacent layers by their merge never changes the result if and only if the upper one has no explicit undefined over a leaf the lower one sets. |
| Policies.MergeInside | sdks/typescript/src/policy/merger.ts:88-140 | The same replacement anywhere in a list of layers. |
| EffectChains.EffectRunner.InvokeSingleEffect | sdks/typescript/src/runtime/actor.ts:1065-1130 | Invoking an effect makes exactly this tree of calls: an unknown name fails exactly in strict mode, a known one at the depth limit; otherwise its handler is shown the record, and its commands run one level deeper, each an effect on the same transaction, a transition or an exception, up to the first failure that is not caught. Terminates by the remaining depth; the depth is restored on every exit and never exceeds the limit. Unless a handler swallowed the exception of a call that had marked its record, every handler of the tree is shown the record stored when it starts, and records move only together with their revisions. |
| EffectChains.EffectRunner.RunHandler | sdks/typescript/src/runtime/actor.ts:1101-1123 | The commands of the handler are run in order, all of them when it ends well, otherwise those up to the first failure that is not caught; depths are kept, and records move only together with their revisions, also when exceptions are swallowed, except one of a call that had marked its record. |
| EffectChains.EffectRunner.InvokeEffects | sdks/typescript/src/runtime/actor.ts:1132-1151 | The effects of a commit are invoked in order, all of them when none fails, otherwise those up to the first that does; depths are kept. |
| EffectChains.EffectRunner.Transition | sdks/typescript/src/runtime/actor.ts:942-1012 | The transition steps the stored record; it fails exactly when there is no record, the step is refused or breaks off, or an effect of its commit fails; its effects run on the committed record. The returned record is the stored one, however many transitions the effects have triggered, unless a handler swallowed the exception of a call that had marked its record. |
| GoStates.HashObject | sdks/go/state_value.go:135-149 | The loop over sorted keys prints the specified key. |
| GoStates.PrintIsUnique | sdks/go/state_value.go:135-149 | A printed value can be read back in one way only, whatever follows it. |
| GoStates.MatchesIsSameCanonical | sdks/go/state_value.go:70-87 | Two values match exactly when their key-sorted forms are equal. |
| GoStates.HashKeyIsUniquelyReadable | sdks/go/state_value.go:70-149 | For names free of the four separator characters, two values have equal keys if and only if they match. |
| GoSagas.MemoryStateStore.UpdateTransaction | sdks/go/store_memory.go:46-65 | Replaces the record exactly on the expected version; a missing record and a stale version are told apart and change nothing. |
| GoSagas.MemoryStateStore.PushSagaStep | sdks/go/store_memory.go:67-73 | Appends the step to that stack only. |
| GoSagas.MemoryStateStore.PopSagaStep | sdks/go/store_memory.go:85-97 | Removes and returns the last step of that stack, or none if it is empty. |
| GoSagas.Rollback | sdks/go/actor.go:384-424 | Pops every step in reverse order of the pushes, empties the stack, leaves other stacks alone and returns the folded context. |
| GoSagas.EarliestStepWins | sdks/go/actor.go:396-412 | The context left is the one recorded by the earliest step with a registered handler and a recorded context; without one it stays. |
| GoSagas.CommitStep | sdks/go/actor.go:266-291 | The step with the context it found is pushed first; the version-checked update then commits the record exactly if the version is as expected, and a refused update leaves the step on the stack. |
| GoSagas.CommitAll | sdks/go/actor.go:266-291 | Events handled one after the other, until one settles at a terminal status, leave the stack of pushed steps, the last context and status, and a version higher by two for each. |
| GoSagas.EmptyContextIff | sdks/go/actor.go:255-291 | A recorded context is empty text if and only if the last context returned before was empty text or could not be marshalled, or none was returned and the first was empty. |
| GoSagas.RollbackUndoesIff | sdks/go/actor.go:384-424 | Over any stack in which step i recorded context i and all handlers are registered, rollback restores the first context if and only if it was non-empty text, or none ever was. |
| GoSagas.RollbackUndoesStepsIff | sdks/go/actor.go:266-291 | The same for the steps that undisturbed commits push. |
| GoSagas.EmptyContextIsLost | sdks/go/actor.go:384-424 | An input: with an empty first context and one step, the rollback keeps the context of the step. |

## Left out

- Traces.SuccessIsTraced: says nothing of calls with an unsafe target, whose configurations are not well formed.
- CallLoops.ExecuteTransition: runs one call undisturbed, with given handler results; hooks and the handler's return value are omitted; overlapping calls are in `Protocol`, and what its effects trigger in `EffectChains`.
- Saga.RestartRestoresIff: is for compensators that restore their snapshot; compensators that only invert their step, over runs of the protocol, are in `Restarts.RestartIff`.
- EffectChains.EffectRunner.Transition: the transition body is a parameter that says what a call does to the record and which effects it has; the bodies themselves are in `Calls`.
- EffectChains.EffectRunner.InvokeSingleEffect: once a handler has swallowed the exception of a call that had marked its record, the tree no longer says which record the later handlers are shown.
- EffectChains.EffectRunner.RunHandler: that the handler is shown the stored record is established by its caller and recorded in the class invariant.
- Rollbacks.RollbackUndoesFailure: leaves out histories, since the last finished unwinding, with a step without a compensator, a context set by an `onDone` handler, or a call that was interrupted with stored steps at another context than the stored one; the source undoes none of these. It also leaves out an unwinding that follows an unfinished one (`Restarts.RestartIff` covers that) and runs in which an overtaken worker goes on unwinding.
- Retries.RawSteps: restates the schedule of the source as a recurrence; `Retries.DelaysGrow` and `Retries.JitterRange` are the properties.
- Protocol.PerformKeeps: `lastError`, timestamps, step inputs and lease owners are not fields of the model's record; a lease is held or not.
- Pipelines.Execute: assumes that nothing else uses the breaker during the call; `Breakers` interleaves calls.
- GoSagas.Rollback: the context handed to a compensator and the JSON encoding of contexts are not modelled.
- GoStates.HashKeyIsUniquelyReadable: not claimed for names with a separator character, where it fails (`GoStates.UncleanNamesCollide`).
- Breaker switched off by policy, and manual resets, are no part of the timing result.
- JavaScript's reordering of integer-like keys and names inherited from `Object.prototype` as keys.
- Validation of `onFail` targets from global or decorator policies, which the source does not check either.
- Reading and validating the input before a call, context validation, and strict-mode registration checks.
- YAML, JSON Schema, file loading, HTTP, telemetry, logging, the visualizer and the editor extension.
- SQL text, query filters, paging, the Postgres driver, lease acquisition, status counters, force-unlock and clean-up reports.
- Deleting or starting transactions from inside an effect.
- The Go handler invocation, hooks, circuit breaker and onDone cascade, and the Rust, Python, C# and Java engines.
