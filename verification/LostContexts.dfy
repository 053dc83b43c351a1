/** Runs of small accepted machines whose rollback does not restore the first context
    (runtime/actor.ts, executeRecoverySweep). */
module LostContexts {
  import opened Records
  import opened Machines
  import opened Leaves
  import opened Validation
  import opened Matching
  import opened Completion
  import opened Stores
  import opened Calls
  import opened Protocol
  import opened Saga
  import opened CallLoops
  import opened Unwindings
  import opened Rollbacks
  import opened Restarts
  import opened SmallMachines

  // ---- Runs without unwinding ----

  predicate NoCalls<C>(actions: seq<Action<C>>) {
    forall i :: 0 <= i < |actions| ==> !actions[i].ReadStack? && !actions[i].CallNext? && !actions[i].MarkNext?
  }

  lemma {:induction false} NothingAnswered<C>(a: Actor, h: Handlers<C>, start: Start<C>, writes: Rule<C>, s: World<C>, actions: seq<Action<C>>)
    requires NoCalls(actions)
    ensures AnsweredRun(a, h, start, writes, s, actions)
    decreases |actions|
  {
    if actions != [] { NothingAnswered(a, h, start, writes, Protocol.Perform(a, writes, s, actions[0]), actions[1..]); }
  }

  predicate NoUnwinding<C>(log: seq<Commit<C>>) {
    forall i :: 0 <= i < |log| ==> !log[i].act.Compensate?
  }

  lemma {:induction false} RestartsAtFirst<C>(log: seq<Commit<C>>, k: nat)
    requires NoUnwinding(log) && 0 < k <= |log|
    ensures RestartAt(log, k) == 1 && CalmAt(log, k)
    decreases k
  {
    if k > 1 { RestartsAtFirst(log, k - 1); }
  }

  lemma {:induction false} FoundFirst<C(!new)>(a: Actor, first: Row<C>, actions: seq<Action<C>>, h: Handlers<C>, s: World<C>, w: nat)
    requires NoCalls(actions) && NoUnwinding(s.log) && |s.log| > 0 && h.registered == a.registered
    requires s == Protocol.Run(a, Writes(a), Started(first), actions)
    requires s.tx.Some? && w in s.workers && s.workers[w] == Swept(s.tx.value.row, s.tx.value.row.version)
    ensures Found(a, first, actions, h, s, w, 1)
  {
    NothingAnswered(a, h, Starts(a), Writes(a), Started(first), actions);
    RestartsAtFirst(s.log, |s.log|);
  }

  lemma {:induction false} FirstOf<C>(a: Actor, writes: Rule<C>, s: World<C>, x: Action<C>, rest: seq<Action<C>>)
    ensures Protocol.Run(a, writes, s, [x] + rest) == Protocol.Run(a, writes, Protocol.Perform(a, writes, s, x), rest)
  {
    assert ([x] + rest)[0] == x && ([x] + rest)[1..] == rest;
  }

  // ---- A crash after the last mark ----

  /** A machine with one state that counts on GO. */
  function Counting(): Machine {
    Machine("m", Compound, "a", "", Field("a", Acting(""), Empty))
  }

  function CountingActor(): Actor {
    Actor(WithErrorState(Counting()), map[(["a"], "GO") := "undo"], {"undo"})
  }

  /** The compensator restores what its entry recorded. */
  function Undo(): Handlers<int> {
    Handlers({"undo"}, (e: Stores.Entry<int>, ctx: int) => Some(e.item.comp.before))
  }

  const Fresh: Row<int> := Row(Leaf("a"), 0, Idle, None, false, 1)

  const Counted: Attempt<int> := Succeeded(["a"], None, 1)

  /** One GO counts to 1; during the second the worker crashes, and a sweep finds the record. */
  function CountedThenStuck(): seq<Action<int>> {
    [GetTransaction(1, "GO"), MarkInFlight(1), CommitSuccess(1, [Counted], []),
     GetTransaction(1, "GO"), MarkInFlight(1), QueryStuck(2)]
  }

  lemma {:induction false} CountingIsAccepted()
    ensures Issues(Counting(), None) == []
    ensures WithErrorState(Counting()).states == Field("a", Acting(""), Field(ErrorKey, ErrorNode(), Empty))
  {
    var m := WithErrorState(Counting());
    NoMore(m, ["a"]);
    var edge := Edge("", "", []);
    assert EdgeIssues(m, ["a"], edge) == [];
    assert EdgesIssues(m, ["a"], Field("GO", edge, Empty)) == [];
    assert ReadableChild(Acting("")) && PlainRecords(Acting("").states);
    OneStateAccepted(Counting(), "a", Acting(""));
  }

  lemma {:induction false} CountingMatches(a: Actor)
    requires a == CountingActor()
    ensures ResolveTransitions(a.m, Leaf("a"), "GO") == [Match(["a"], Edge("", "", []))]
  {
    CountingIsAccepted();
    assert Get(a.m.states, "a") == Some(Acting(""));
  }

  const Marking: Change<int> := Change(Patch(None, None, Some(InFlight), Some(Some("GO")), Some(true)), [])

  lemma {:induction false} CountingBegins(a: Actor, base: Row<int>)
    requires a == CountingActor() && base.state == Leaf("a")
    ensures Writes(a)(base, Begin("GO")) == Some(Marking)
  {
    CountingMatches(a);
  }

  lemma {:induction false} NothingPendingAt(m: Machine)
    ensures FindPendingOnDone(m, Leaf("a")) == None
  {
    var leaves := ActiveLeafPaths(m, Leaf("a"), []);
    assert leaves == [["a"]] by { assert [] + ["a"] == ["a"]; }
    assert ProperPrefixes(["a"]) == [];
    assert Containers(leaves, []) == Containers(leaves[1..], []) == [];
  }

  lemma {:induction false} OneAttempt<C>(a: Actor, event: string, x: Match, attempt: Attempt<C>, now: Local<C>)
    ensures Work(a, event, [x], [attempt], now) == Calls.Advance(a, event, x, attempt, now)
  {
    WorkExtends(a, event, [x], [], attempt, now);
    assert [] + [attempt] == [attempt];
  }

  /** An attempt without a target, at a source that has a compensator. */
  lemma {:induction false} Stays<C>(a: Actor, event: string, x: Match, given: Option<string>, context: C, now: Local<C>)
    requires Reference(x, given) == "" && (x.source, event) in a.compensators
    ensures Calls.Advance(a, event, x, Succeeded(x.source, given, context), now)
      == Some(Local(now.value, context, now.comps + [Comp(a.compensators[(x.source, event)], now.value, now.context)]))
  {}

  lemma {:induction false} QuietAt(m: Machine)
    ensures Cascade(m, Leaf("a"), CascadeLimit) == Cascaded(Leaf("a"), 0, Quiet)
  {
    NothingPendingAt(m);
  }

  lemma {:induction false} CountingSucceeds(a: Actor, base: Row<int>)
    requires a == CountingActor() && base.state == Leaf("a")
    ensures Writes(a)(base, Succeed("GO", [Counted], []))
      == Some(Change(Settle(Leaf("a"), Some(1), ResolveSettledStatus(a.m, Leaf("a"), false)), [Comp("undo", Leaf("a"), base.context)]))
  {
    CountingMatches(a);
    QuietAt(a.m);
    var x := Match(["a"], Edge("", "", []));
    var now := Local(Leaf("a"), 1, [Comp("undo", Leaf("a"), base.context)]);
    Stays(a, "GO", x, None, 1, Before(base));
    assert [] + now.comps == now.comps;
    OneAttempt(a, "GO", x, Counted, Before(base));
    SucceedWrites(a, base, "GO", [Counted], now, []);
  }

  // ---- The worlds of that run ----

  /** The records after the first, the second and the third update; `status` is the settled one. */
  function Marked1(): Row<int> { Patched(Fresh, Marking.patch) }

  function Counted1(status: Status): Row<int> { Patched(Marked1(), Settle(Leaf("a"), Some(1), status)) }

  function MarkedAgain(status: Status): Row<int> { Patched(Counted1(status), Marking.patch) }

  const Step1: Comp<int> := Comp("undo", Leaf("a"), 0)

  function CountedLog(status: Status): seq<Commit<int>> {
    [Commit(Fresh, 0, 0, Create), Commit(Marked1(), 1, 1, Begin("GO")),
     Commit(Counted1(status), 1, 1, Succeed("GO", [Counted], []))]
  }

  function StuckLog(status: Status): seq<Commit<int>> {
    CountedLog(status) + [Commit(MarkedAgain(status), 1, 3, Begin("GO"))]
  }

  /** The facts about the updates that the run needs. */
  ghost predicate CountingRule(writes: Rule<int>, status: Status) {
    && status != InFlight
    && (forall base: Row<int> :: base.state == Leaf("a") ==> writes(base, Begin("GO")) == Some(Marking))
    && writes(Fresh, Succeed("GO", [Counted], [])) == Some(Change(Settle(Leaf("a"), Some(1), status), [Step1]))
  }

  lemma {:induction false} FirstGo(a: Actor, writes: Rule<int>, status: Status)
    requires CountingRule(writes, status) && Matched(a, Leaf("a"), "GO")
    ensures Protocol.Run(a, writes, Started(Fresh), CountedThenStuck()[..3])
      == World(Some(Tx(Counted1(status), Stores.Pending([Step1]))), CountedLog(status), map[])
  {
    var s0 := Started(Fresh);
    var s1 := World(Some(Tx(Fresh, [])), [Commit(Fresh, 0, 0, Create)], map[1 := Worker.Called(Fresh, 1, "GO")]);
    var s2 := World(Some(Tx(Marked1(), [])), [Commit(Fresh, 0, 0, Create), Commit(Marked1(), 1, 1, Begin("GO"))], map[1 := Handling(Fresh, 2, "GO")]);
    var s3 := World(Some(Tx(Counted1(status), Stores.Pending([Step1]))), CountedLog(status), map[]);
    var x: Action<int>, y: Action<int>, z := GetTransaction(1, "GO"), MarkInFlight(1), CommitSuccess(1, [Counted], []);
    assert Protocol.Perform(a, writes, s0, x) == s1;
    PerformMarks(a, writes, s1, s2);
    PerformCounts(a, writes, s2, s3, status);
    assert CountedThenStuck()[..3] == [x] + ([y] + [z]);
    FirstOf(a, writes, s0, x, [y] + [z]);
    FirstOf(a, writes, s1, y, [z]);
    RunOne(a, writes, s2, z);
  }

  lemma {:induction false} PerformMarks(a: Actor, writes: Rule<int>, s1: World<int>, s2: World<int>)
    requires writes(Fresh, Begin("GO")) == Some(Marking)
    requires s1 == World(Some(Tx(Fresh, [])), [Commit(Fresh, 0, 0, Create)], map[1 := Worker.Called(Fresh, 1, "GO")])
    requires s2 == World(Some(Tx(Marked1(), [])), [Commit(Fresh, 0, 0, Create), Commit(Marked1(), 1, 1, Begin("GO"))], map[1 := Handling(Fresh, 2, "GO")])
    ensures Protocol.Perform(a, writes, s1, MarkInFlight(1)) == s2
  {
    assert [] + Stores.Pending<int>([]) == [];
  }

  lemma {:induction false} PerformCounts(a: Actor, writes: Rule<int>, s2: World<int>, s3: World<int>, status: Status)
    requires writes(Fresh, Succeed("GO", [Counted], [])) == Some(Change(Settle(Leaf("a"), Some(1), status), [Step1]))
    requires s2 == World(Some(Tx(Marked1(), [])), [Commit(Fresh, 0, 0, Create), Commit(Marked1(), 1, 1, Begin("GO"))], map[1 := Handling(Fresh, 2, "GO")])
    requires s3 == World(Some(Tx(Counted1(status), Stores.Pending([Step1]))), CountedLog(status), map[])
    ensures Protocol.Perform(a, writes, s2, CommitSuccess(1, [Counted], [])) == s3
  {
    assert [] + Stores.Pending([Step1]) == Stores.Pending([Step1]);
    assert map[1 := Handling(Fresh, 2, "GO")] - {1} == map[];
  }

  lemma {:induction false} SecondGo(a: Actor, writes: Rule<int>, status: Status)
    requires CountingRule(writes, status) && Matched(a, Leaf("a"), "GO")
    ensures Protocol.Run(a, writes, World(Some(Tx(Counted1(status), Stores.Pending([Step1]))), CountedLog(status), map[]), CountedThenStuck()[3..])
      == StuckWorld(status)
  {
    var s3 := World(Some(Tx(Counted1(status), Stores.Pending([Step1]))), CountedLog(status), map[]);
    var s4 := s3.(workers := map[1 := Worker.Called(Counted1(status), 3, "GO")]);
    var s5 := World(Some(Tx(MarkedAgain(status), Stores.Pending([Step1]))), StuckLog(status), map[1 := Handling(Counted1(status), 4, "GO")]);
    var x: Action<int>, y: Action<int>, z: Action<int> := GetTransaction(1, "GO"), MarkInFlight(1), QueryStuck(2);
    assert Protocol.Perform(a, writes, s3, x) == s4;
    PerformMarksAgain(a, writes, s4, s5, status);
    assert Protocol.Perform(a, writes, s5, z) == StuckWorld(status);
    assert CountedThenStuck()[3..] == [x] + ([y] + [z]);
    FirstOf(a, writes, s3, x, [y] + [z]);
    FirstOf(a, writes, s4, y, [z]);
    RunOne(a, writes, s5, z);
  }

  function StuckWorld(status: Status): World<int> {
    World(Some(Tx(MarkedAgain(status), Stores.Pending([Step1]))), StuckLog(status),
          map[1 := Handling(Counted1(status), 4, "GO"), 2 := Swept(MarkedAgain(status), 4)])
  }

  lemma {:induction false} PerformMarksAgain(a: Actor, writes: Rule<int>, s4: World<int>, s5: World<int>, status: Status)
    requires writes(Counted1(status), Begin("GO")) == Some(Marking)
    requires s4 == World(Some(Tx(Counted1(status), Stores.Pending([Step1]))), CountedLog(status), map[1 := Worker.Called(Counted1(status), 3, "GO")])
    requires s5 == World(Some(Tx(MarkedAgain(status), Stores.Pending([Step1]))), StuckLog(status), map[1 := Handling(Counted1(status), 4, "GO")])
    ensures Protocol.Perform(a, writes, s4, MarkInFlight(1)) == s5
  {
    assert Stores.Pending([Step1]) + Stores.Pending<int>([]) == Stores.Pending([Step1]);
  }

  lemma {:induction false} CountingRules(a: Actor)
    requires a == CountingActor()
    ensures CountingRule(Writes(a), ResolveSettledStatus(a.m, Leaf("a"), false)) && Matched(a, Leaf("a"), "GO")
  {
    forall base: Row<int> | base.state == Leaf("a") ensures Writes(a)(base, Begin("GO")) == Some(Marking) { CountingBegins(a, base); }
    CountingSucceeds(a, Fresh);
    CountingMatches(a);
  }

  lemma {:induction false} CountingRuns(a: Actor)
    requires a == CountingActor()
    ensures Protocol.Run(a, Writes(a), Started(Fresh), CountedThenStuck()) == StuckWorld(ResolveSettledStatus(a.m, Leaf("a"), false))
  {
    var status := ResolveSettledStatus(a.m, Leaf("a"), false);
    CountingRules(a);
    FirstGo(a, Writes(a), status);
    SecondGo(a, Writes(a), status);
    assert CountedThenStuck() == CountedThenStuck()[..3] + CountedThenStuck()[3..];
    RunAppends(a, Writes(a), Started(Fresh), CountedThenStuck()[..3], CountedThenStuck()[3..]);
  }

  lemma {:induction false} CountingIsQuiet(status: Status)
    ensures NoCalls(CountedThenStuck()) && NoUnwinding(StuckLog(status)) && StuckWorld(status).log == StuckLog(status)
  {}

  lemma {:induction false} CountingFound(a: Actor, s: World<int>)
    requires a == CountingActor() && s == Protocol.Run(a, Writes(a), Started(Fresh), CountedThenStuck())
    ensures Found(a, Fresh, CountedThenStuck(), Undo(), s, 2, 1)
    ensures s == StuckWorld(ResolveSettledStatus(a.m, Leaf("a"), false))
  {
    CountingRuns(a);
    CountingIsQuiet(ResolveSettledStatus(a.m, Leaf("a"), false));
    FoundFirst(a, Fresh, CountedThenStuck(), Undo(), s, 2);
  }

  /** One pending step that recorded `before`: what is left of it, and what compensating it gives. */
  lemma {:induction false} OneStepLeft<C>(a: Actor, s: World<C>, step: Comp<C>)
    requires Restarts.Ready(Writes(a), s, 1) && s.tx.value.stack == Stores.Pending([step])
    ensures Appended(Writes(a), s.log, |s.log|) == [step] && |Appended(Writes(a), s.log, 1)| == 0
    ensures Left(Writes(a), s.log, 1, 0) == [Stores.Entry(1, Item(step, false))] && Left(Writes(a), s.log, 1, 1) == []
    ensures Uncompensated(s.tx.value.stack) == Left(Writes(a), s.log, 1, 0)
  {
    var comps := Appended(Writes(a), s.log, |s.log|);
    assert |comps| == |s.tx.value.stack| && s.tx.value.stack[0].comp == comps[0];
    BetweenEntries(comps, 0, 1);
    BetweenEntries(comps, 0, 0);
  }

  lemma {:induction false} UnwoundOne<C>(h: Handlers<C>, e: Stores.Entry<C>, ctx: C)
    ensures Unwound(h, [e], ctx) == Saga.Compensated(h, e, ctx) && Unwound(h, [], ctx) == ctx
  {
    assert [e][1..] == [];
  }

  lemma {:induction false} CountingSweep(a: Actor, s: World<int>)
    requires Found(a, Fresh, CountedThenStuck(), Undo(), s, 2, 1) && a.registered == {"undo"}
    requires s.tx.value.stack == Stores.Pending([Step1]) && s.tx.value.row.context == 1
    ensures |Uncompensated(s.tx.value.stack)| == 1
    ensures HasContext(Runs(a, Writes(a))(s, Wholly(Undo(), 2, Uncompensated(s.tx.value.stack), 1)), 0)
  {
    FoundIsReady(a, Fresh, CountedThenStuck(), Undo(), s, 2, 1);
    OneStepLeft(a, s, Step1);
    UnwoundOne(Undo(), Stores.Entry(1, Item(Step1, false)), 1);
    SweepLeaves(a, Fresh, CountedThenStuck(), Undo(), s, 2, 1, Undo());
  }

  lemma {:induction false} CountingRestart(a: Actor, s: World<int>)
    requires Found(a, Fresh, CountedThenStuck(), Undo(), s, 2, 1) && a.registered == {"undo"}
    requires s.tx.value.stack == Stores.Pending([Step1]) && s.tx.value.row.context == 1
    ensures |Uncompensated(s.tx.value.stack)| == 1
    ensures HasContext(Runs(a, Writes(a))(s, Restarted(Undo(), 2, 3, Uncompensated(s.tx.value.stack), 1, 1)), 1)
  {
    FoundIsReady(a, Fresh, CountedThenStuck(), Undo(), s, 2, 1);
    OneStepLeft(a, s, Step1);
    UnwoundOne(Undo(), Stores.Entry(1, Item(Step1, false)), 1);
    RestartLeaves(a, Fresh, CountedThenStuck(), Undo(), s, 2, 3, 1, 1, Undo());
  }

  lemma {:induction false} UndoInverts()
    ensures InvertsFrom(Undo(), [Step1], 0, [0, 1]) && Saga.Restores(Undo(), Stores.Pending([Step1]))
  {}

  /** A sweep restores the first context 0. When it crashes after its only entry, the second sweep leaves
      1, although the compensator inverts its step and restores what was recorded. */
  lemma {:induction false} SecondSweepLosesIt()
    ensures var a := CountingActor(); var s := Protocol.Run(a, Writes(a), Started(Fresh), CountedThenStuck());
      && Issues(Counting(), None) == [] && Found(a, Fresh, CountedThenStuck(), Undo(), s, 2, 1) && Fresh.context == 0
      && s.tx.value.stack == Stores.Pending([Step1]) && |Uncompensated(s.tx.value.stack)| == 1
      && InvertsFrom(Undo(), [Step1], 0, [0, 1]) && Saga.Restores(Undo(), Stores.Pending([Step1]))
      && HasContext(Runs(a, Writes(a))(s, Wholly(Undo(), 2, Uncompensated(s.tx.value.stack), 1)), 0)
      && HasContext(Runs(a, Writes(a))(s, Restarted(Undo(), 2, 3, Uncompensated(s.tx.value.stack), 1, 1)), 1)
  {
    var a := CountingActor();
    var s := Protocol.Run(a, Writes(a), Started(Fresh), CountedThenStuck());
    CountingIsAccepted();
    CountingFound(a, s);
    UndoInverts();
    CountingSweep(a, s);
    CountingRestart(a, s);
  }

  // ---- A crash of a call that failed part way ----

  const InR: Path := ["p", "r", "x"]

  const InQ: Path := ["p", "q", "y"]

  function LeavingActor(): Actor {
    Actor(WithErrorState(Leaving()), map[(InR, "GO") := "undo", (InQ, "GO") := "undo"], {"undo"})
  }

  const Both: Row<int> := Row(BothActive, 0, Idle, None, false, 1)

  /** The step in region r counts to 1, the one in region q fails. */
  function Halfway(): seq<Attempt<int>> {
    [Succeeded(InR, Some(""), 1), Attempt.Failed(InQ, "z", true)]
  }

  const HalfStep: Comp<int> := Comp("undo", BothActive, 0)

  /** The worker crashes after it has stored the step, and a sweep finds the record. */
  function HalfwayThenStuck(): seq<Action<int>> {
    [GetTransaction(1, "GO"), MarkInFlight(1), FlushFailure(1, Halfway()), QueryStuck(2)]
  }

  /** The compensator counts down. */
  function CountDown(): Handlers<int> {
    Handlers({"undo"}, (e: Stores.Entry<int>, ctx: int) => Some(ctx - 1))
  }

  const InRMatch: Match := Match(InR, Edge("#done", "", []))

  const InQMatch: Match := Match(InQ, Edge("z", "", []))

  lemma {:induction false} HalfwayWork(a: Actor)
    requires a == LeavingActor()
    ensures ResolveTransitions(a.m, BothActive, "GO") == [InRMatch, InQMatch]
    ensures FailsLast(a, Both, "GO", Halfway())
    ensures UntilFailure(a, Both, "GO", Halfway()) == Some(Local(BothActive, 1, [HalfStep]))
  {
    LeavingMatches(a.m);
    assert Halfway()[..1] == [Succeeded(InR, Some(""), 1)];
    WorkExtends(a, "GO", [InRMatch, InQMatch], [], Halfway()[0], Before(Both));
    assert [] + [Halfway()[0]] == Halfway()[..1];
    Stays(a, "GO", InRMatch, Some(""), 1, Before(Both));
    assert [] + [HalfStep] == [HalfStep];
  }

  const Storing: Change<int> := Change(Patch(None, None, None, None, None), [HalfStep])

  lemma {:induction false} HalfwayWrites(a: Actor)
    requires a == LeavingActor()
    ensures Writes(a)(Both, Begin("GO")) == Some(Marking) && Writes(a)(Both, Append("GO", Halfway())) == Some(Storing)
    ensures BeforeFlush(a, Both, "GO", Halfway()) == Some(Local(BothActive, 1, [HalfStep])) && Matched(a, BothActive, "GO")
  {
    HalfwayWork(a);
    AppendWrites(a, Both, "GO", Halfway());
  }

  function BothMarked(): Row<int> { Patched(Both, Marking.patch) }

  function BothStored(): Row<int> { Patched(BothMarked(), Storing.patch) }

  function HalfwayLog(): seq<Commit<int>> {
    [Commit(Both, 0, 0, Create), Commit(BothMarked(), 1, 1, Begin("GO")), Commit(BothStored(), 1, 1, Append("GO", Halfway()))]
  }

  function HalfwayWorld(): World<int> {
    World(Some(Tx(BothStored(), Stores.Pending([HalfStep]))), HalfwayLog(),
          map[1 := Failing(Both, 3, "GO", Halfway()), 2 := Swept(BothStored(), 3)])
  }

  lemma {:induction false} HalfwayMarks(a: Actor, writes: Rule<int>, s1: World<int>, s2: World<int>)
    requires writes(Both, Begin("GO")) == Some(Marking)
    requires s1 == World(Some(Tx(Both, [])), [Commit(Both, 0, 0, Create)], map[1 := Worker.Called(Both, 1, "GO")])
    requires s2 == World(Some(Tx(BothMarked(), [])), [Commit(Both, 0, 0, Create), Commit(BothMarked(), 1, 1, Begin("GO"))], map[1 := Handling(Both, 2, "GO")])
    ensures Protocol.Perform(a, writes, s1, MarkInFlight(1)) == s2
  {
    assert [] + Stores.Pending<int>([]) == [];
  }

  lemma {:induction false} HalfwayStores(a: Actor, writes: Rule<int>, s2: World<int>, s3: World<int>)
    requires writes(Both, Append("GO", Halfway())) == Some(Storing)
    requires BeforeFlush(a, Both, "GO", Halfway()) == Some(Local(BothActive, 1, [HalfStep]))
    requires s2 == World(Some(Tx(BothMarked(), [])), [Commit(Both, 0, 0, Create), Commit(BothMarked(), 1, 1, Begin("GO"))], map[1 := Handling(Both, 2, "GO")])
    requires s3 == World(Some(Tx(BothStored(), Stores.Pending([HalfStep]))), HalfwayLog(), map[1 := Failing(Both, 3, "GO", Halfway())])
    ensures Protocol.Perform(a, writes, s2, FlushFailure(1, Halfway())) == s3
  {
    assert [] + Stores.Pending([HalfStep]) == Stores.Pending([HalfStep]);
  }

  lemma {:induction false} HalfwayRuns(a: Actor, writes: Rule<int>)
    requires writes(Both, Begin("GO")) == Some(Marking) && writes(Both, Append("GO", Halfway())) == Some(Storing)
    requires BeforeFlush(a, Both, "GO", Halfway()) == Some(Local(BothActive, 1, [HalfStep])) && Matched(a, BothActive, "GO")
    ensures Protocol.Run(a, writes, Started(Both), HalfwayThenStuck()) == HalfwayWorld()
  {
    var s0 := Started(Both);
    var s1 := World(Some(Tx(Both, [])), [Commit(Both, 0, 0, Create)], map[1 := Worker.Called(Both, 1, "GO")]);
    var s2 := World(Some(Tx(BothMarked(), [])), [Commit(Both, 0, 0, Create), Commit(BothMarked(), 1, 1, Begin("GO"))], map[1 := Handling(Both, 2, "GO")]);
    var s3 := World(Some(Tx(BothStored(), Stores.Pending([HalfStep]))), HalfwayLog(), map[1 := Failing(Both, 3, "GO", Halfway())]);
    var x: Action<int>, y: Action<int>, z, q: Action<int> := GetTransaction(1, "GO"), MarkInFlight(1), FlushFailure(1, Halfway()), QueryStuck(2);
    assert Protocol.Perform(a, writes, s0, x) == s1;
    HalfwayMarks(a, writes, s1, s2);
    HalfwayStores(a, writes, s2, s3);
    assert Protocol.Perform(a, writes, s3, q) == HalfwayWorld();
    assert HalfwayThenStuck() == [x] + ([y] + ([z] + [q]));
    FirstOf(a, writes, s0, x, [y] + ([z] + [q]));
    FirstOf(a, writes, s1, y, [z] + [q]);
    FirstOf(a, writes, s2, z, [q]);
    RunOne(a, writes, s3, q);
  }

  lemma {:induction false} HalfwayIsQuiet()
    ensures NoCalls(HalfwayThenStuck()) && NoUnwinding(HalfwayLog())
  {}

  lemma {:induction false} HalfwayFound(a: Actor, s: World<int>)
    requires a == LeavingActor() && s == Protocol.Run(a, Writes(a), Started(Both), HalfwayThenStuck())
    ensures s == HalfwayWorld() && Found(a, Both, HalfwayThenStuck(), CountDown(), s, 2, 1)
  {
    HalfwayWrites(a);
    HalfwayRuns(a, Writes(a));
    HalfwayIsQuiet();
    FoundFirst(a, Both, HalfwayThenStuck(), CountDown(), s, 2);
  }

  lemma {:induction false} HalfwayIsInterrupted(a: Actor)
    requires a == LeavingActor()
    ensures Interrupted(a, HalfwayLog(), 1) && ReachedAt(a, HalfwayLog(), 3) == 1
  {
    HalfwayWork(a);
    assert ForwardAt(a, HalfwayLog(), 1);
  }

  lemma {:induction false} HalfwaySweep(a: Actor, s: World<int>)
    requires Found(a, Both, HalfwayThenStuck(), CountDown(), s, 2, 1) && a.registered == {"undo"}
    requires s.tx.value.stack == Stores.Pending([HalfStep]) && s.tx.value.row.context == 0
    ensures HasContext(Runs(a, Writes(a))(s, Wholly(CountDown(), 2, Uncompensated(s.tx.value.stack), 0)), -1)
  {
    FoundIsReady(a, Both, HalfwayThenStuck(), CountDown(), s, 2, 1);
    OneStepLeft(a, s, HalfStep);
    UnwoundOne(CountDown(), Stores.Entry(1, Item(HalfStep, false)), 0);
    SweepLeaves(a, Both, HalfwayThenStuck(), CountDown(), s, 2, 1, CountDown());
  }

  /** A sweep that recovers a call which counted to 1 and then failed counts down from the stored 0. */
  lemma {:induction false} SweepOvershoots()
    ensures var a := LeavingActor(); var s := Protocol.Run(a, Writes(a), Started(Both), HalfwayThenStuck());
      && Issues(Leaving(), None) == [] && Found(a, Both, HalfwayThenStuck(), CountDown(), s, 2, 1) && Both.context == 0
      && Interrupted(a, s.log, 1) && ReachedAt(a, s.log, |s.log|) == 1 && InvertsFrom(CountDown(), [HalfStep], 0, [0, 1])
      && s.tx.value.stack == Stores.Pending([HalfStep])
      && HasContext(Runs(a, Writes(a))(s, Wholly(CountDown(), 2, Uncompensated(s.tx.value.stack), 0)), -1)
  {
    var a := LeavingActor();
    var s := Protocol.Run(a, Writes(a), Started(Both), HalfwayThenStuck());
    LeavingIsAccepted();
    HalfwayFound(a, s);
    HalfwayIsInterrupted(a);
    HalfwaySweep(a, s);
    CountsDown();
  }

  lemma {:induction false} CountsDown()
    ensures InvertsFrom(CountDown(), [HalfStep], 0, [0, 1])
  {}
}
