/** What a whole run's calls come to, what it may call, and what it answers. */
module AgentOutcomes {
  import opened Wrappers
  import opened Joining
  import opened Conversation
  import opened Ordering
  import opened AgentRun
  import opened AgentDrivers
  import opened AgentRounds
  import opened AgentActions

  // ---- Where a recorded answer comes from ----

  /** The registry's own answer to the announced call. */
  predicate IsRegistrysAnswer(s: State, world: World, message: Message) {
    && s.running.Some? && s.running.value.name in s.available && world.invoked.Success?
    && message == Message(Tool, [Outcome(s.running.value.callId, world.invoked.value.output,
                                         world.invoked.value.isError)])
  }

  /** An error that tells of the announced call's own failure. */
  predicate TellsOfFailure(s: State, world: World, message: Message) {
    && s.running.Some? && s.running.value.name in s.available && world.invoked.Failure?
    && message.content != [] && message.content[0].Outcome?
    && message == Message(Tool, [Outcome(s.running.value.callId, message.content[0].content, true)])
    && TellsOf(message.content[0].content, world.invoked.error.kind, world.invoked.error.message)
  }

  /** An error that tells that the run has no such tool. */
  ghost predicate TellsOfNoTool(s: State, message: Message) {
    && s.running.Some? && s.running.value.name !in s.available
    && message.content != [] && message.content[0].Outcome?
    && message == Message(Tool, [Outcome(s.running.value.callId, message.content[0].content, true)])
    && exists text :: TellsOf(message.content[0].content, NotFound, text)
  }

  /** An error that closes an outstanding call off, of a run that failed so. */
  ghost predicate TellsOfStopping(s: State, step: Step, message: Message) {
    && step.Failure?
    && exists call :: (s.running == Some(call) || call in s.pending) && ClosesOff(message, call.callId, step.error.kind)
  }

  /** How one action, taken by the run as it stood, came to record an answer. */
  ghost predicate AnswerComesFrom(settings: Settings, s: State, world: World, message: Message) {
    || IsRegistrysAnswer(s, world, message)
    || TellsOfFailure(s, world, message)
    || TellsOfNoTool(s, message)
    || TellsOfStopping(s, Advance(settings, s, world).1, message)
  }

  /** Nothing is announced or pending before a run is prepared. */
  predicate Unstarted(s: State) {
    !s.prepared ==> s.running.None? && s.pending == []
  }

  ghost predicate AddsNoAnswer(log: seq<Message>, log': seq<Message>) {
    log <= log' && forall i | |log| <= i < |log'| :: log'[i].role != Tool
  }

  lemma AddsNoAnswerTransitive(a: seq<Message>, b: seq<Message>, c: seq<Message>)
    requires AddsNoAnswer(a, b) && AddsNoAnswer(b, c)
    ensures AddsNoAnswer(a, c)
  {
  }

  lemma RoomAddsNoAnswer(settings: Settings, s: State, dropped: nat, round: Compaction)
    requires PlainRecap(round.recap)
    ensures AddsNoAnswer(s.log, WithRoom(settings, s, dropped, round).log)
  {
    forall i | 0 <= i < |round.recap| ensures round.recap[i].role != Tool {
      assert round.recap[i] in round.recap;
    }
  }

  lemma ModelAddsNoAnswer(settings: Settings, s: State, world: World, s': State, step: Step)
    requires Lawful(world) && ModelAnswers(settings, s, world, s', step)
    ensures AddsNoAnswer(s.log, s'.log)
  {
  }

  lemma TurnAddsNoAnswer(settings: Settings, s: State, world: World)
    requires Lawful(world) && s.prepared && s.running.None? && s.pending == [] && MayAct(settings, world.before)
    ensures AddsNoAnswer(s.log, Advance(settings, s, world).0.log)
  {
    ATurnIsTaken(settings, s, world);
    if world.dropped.Success? {
      var roomy := WithRoom(settings, s, world.dropped.value, world.compaction);
      RoomAddsNoAnswer(settings, s, world.dropped.value, world.compaction);
      var (s', step) := Advance(settings, s, world);
      if ModelAnswers(settings, roomy, world, s', step) {
        ModelAddsNoAnswer(settings, roomy, world, s', step);
        AddsNoAnswerTransitive(s.log, roomy.log, s'.log);
      }
    }
  }

  lemma PreparedAddsNoAnswer(settings: Settings, s: State, world: World)
    requires Lawful(world) && MayPrepare(settings, s, world)
    ensures AddsNoAnswer(s.log, Prepared(settings, s, world).log)
  {
    var prompted := s.(available := Prepared(settings, s, world).available, log := s.log + PromptOf(settings, world));
    if s.compacting && settings.compacts {
      RoomAddsNoAnswer(settings, prompted, world.droppedAtStart.value, world.compactionAtStart);
    }
  }

  lemma FirstActionAddsNoAnswer(settings: Settings, s: State, world: World)
    requires Lawful(world) && !s.prepared && s.running.None? && s.pending == [] && MayAct(settings, world.before)
    ensures AddsNoAnswer(s.log, Advance(settings, s, world).0.log)
  {
    if MayPrepare(settings, s, world) {
      var prepared := Prepared(settings, s, world);
      TheFirstActionPrepares(settings, s, world);
      PreparedAddsNoAnswer(settings, s, world);
      TurnAddsNoAnswer(settings, prepared, world);
      AddsNoAnswerTransitive(s.log, prepared.log, Advance(settings, s, world).0.log);
    } else {
      FailingToPrepareFails(settings, s, world);
      assert forall m | m in world.compactionAtStart.recap :: m.role != Tool;
    }
  }

  /** Every answer in `log'` beyond `log` comes from the action. */
  ghost predicate AnswersComeFrom(settings: Settings, s: State, world: World, log: seq<Message>, log': seq<Message>) {
    log <= log'
    && forall i | |log| <= i < |log'| && log'[i].role == Tool :: AnswerComesFrom(settings, s, world, log'[i])
  }

  lemma ClosingsComeFrom(settings: Settings, s: State, world: World, owing: State, log: seq<Message>, s': State)
    requires Advance(settings, s, world).1.Failure?
    requires AllClosedOff(owing, log, s', Advance(settings, s, world).1.error.kind)
    requires (owing.running == s.running || owing.running == None) && owing.pending == s.pending
    ensures AnswersComeFrom(settings, s, world, log, s'.log)
  {
    var owed := (if owing.running.Some? then [owing.running.value] else []) + owing.pending;
    forall i | |log| <= i < |s'.log| && s'.log[i].role == Tool ensures AnswerComesFrom(settings, s, world, s'.log[i]) {
      var call := owed[i - |log|];
      assert s'.log[i] == s'.log[|log| + (i - |log|)];
      assert ClosesOff(s'.log[i], call.callId, Advance(settings, s, world).1.error.kind);
      assert s.running == Some(call) || call in s.pending;
    }
  }

  lemma CallAnswersComeFrom(settings: Settings, s: State, world: World)
    requires s.prepared && s.running.Some? && MayAct(settings, world.before)
    ensures AnswersComeFrom(settings, s, world, s.log, Advance(settings, s, world).0.log)
  {
    var (s', step) := Advance(settings, s, world);
    if s.running.value.name !in s.available {
      var output, text := AnUnavailableCallIsNotMade(settings, s, world);
      assert TellsOf(Message(Tool, [Outcome(s.running.value.callId, output, true)]).content[0].content, NotFound, text);
      assert TellsOfNoTool(s, Message(Tool, [Outcome(s.running.value.callId, output, true)]));
    } else if world.invoked.Success? {
      AnAnsweredCallIsRecorded(settings, s, world);
    } else {
      FailedCallAnswersComeFrom(settings, s, world);
    }
  }

  lemma FailedCallAnswersComeFrom(settings: Settings, s: State, world: World)
    requires s.prepared && s.running.Some? && MayAct(settings, world.before)
    requires s.running.value.name in s.available && world.invoked.Failure?
    ensures AnswersComeFrom(settings, s, world, s.log, Advance(settings, s, world).0.log)
  {
    var s' := Advance(settings, s, world).0;
    var output := AFailedCallIsToldOf(settings, s, world);
    var answer := Message(Tool, [Outcome(s.running.value.callId, output, true)]);
    assert TellsOfFailure(s, world, answer);
    if !MayAct(settings, world.after) {
      ClosingsComeFrom(settings, s, world, s.(running := None), s.log + [answer], s');
      assert s'.log[|s.log|] == (s.log + [answer])[|s.log|];
    }
  }

  /** Every answer an action records is the registry's own, or is marked an error and tells of what went
      wrong: the call's failure, the lack of the tool, or what stopped the run. */
  lemma ActionAnswersComeFrom(settings: Settings, s: State, world: World)
    requires Lawful(world) && Unstarted(s)
    ensures AnswersComeFrom(settings, s, world, s.log, Advance(settings, s, world).0.log)
  {
    var (s', step) := Advance(settings, s, world);
    if !MayAct(settings, world.before) {
      AStoppedRunStartsNothing(settings, s, world);
      ClosingsComeFrom(settings, s, world, s, s.log, s');
    } else if !s.prepared {
      FirstActionAddsNoAnswer(settings, s, world);
    } else if s.running.Some? {
      CallAnswersComeFrom(settings, s, world);
    } else if s.pending != [] {
      TheFirstPendingCallIsAnnounced(settings, s, world);
      if step.Failure? {
        ClosingsComeFrom(settings, s, world, s, s.log, s');
      }
    } else {
      TurnAddsNoAnswer(settings, s, world);
    }
  }

  // ---- Over a whole run ----

  /** The run after `k` actions. */
  function After(settings: Settings, s: State, worlds: seq<World>, k: nat): State
    requires k <= |worlds|
    decreases k
  {
    if k == 0 then s else After(settings, Advance(settings, s, worlds[0]).0, worlds[1..], k - 1)
  }

  /** The `k`th action of a run recorded this answer. */
  ghost predicate RecordedBy(settings: Settings, s: State, worlds: seq<World>, k: nat, message: Message) {
    k < |worlds| && AnswerComesFrom(settings, After(settings, s, worlds, k), worlds[k], message)
  }

  lemma RecordedLater(settings: Settings, s: State, worlds: seq<World>, k: nat, message: Message)
    requires worlds != [] && RecordedBy(settings, Advance(settings, s, worlds[0]).0, worlds[1..], k, message)
    ensures RecordedBy(settings, s, worlds, k + 1, message)
  {
    assert worlds[1..][k] == worlds[k + 1];
  }

  /** An action after which there is another. */
  predicate GoesOn(step: Step) {
    step.Success? && !HasFinished(step.value)
  }

  /** What each action of a run comes to, up to the first that fails or finishes. */
  function Trace(settings: Settings, s: State, worlds: seq<World>): (steps: seq<Step>)
    ensures |steps| <= |worlds| && (worlds != [] ==> steps != [])
    decreases |worlds|
  {
    if worlds == [] then []
    else
      var (s', step) := Advance(settings, s, worlds[0]);
      [step] + (if GoesOn(step) then Trace(settings, s', worlds[1..]) else [])
  }

  /** What the caller is shown of actions: nothing of one that fails. */
  function ShownOf(steps: seq<Step>): seq<Update> {
    if steps == [] then []
    else (if steps[0].Success? then steps[0].value else []) + ShownOf(steps[1..])
  }

  /** How a run ends whose last action came to `step`, when its surroundings have no more answers, or do. */
  predicate EndsAs(ending: Ending, step: Step, exhausted: bool) {
    match step
    case Failure(error) => ending == Failed(error)
    case Success(updates) => if HasFinished(updates) then ending.Answered? else exhausted && ending.Stalled?
  }

  /** A run that took these actions, and how it ended. */
  ghost predicate IsItsActions(steps: seq<Step>, updates: seq<Update>, ending: Ending, most: nat) {
    && updates == ShownOf(steps)
    && (forall k | 0 <= k < |steps| - 1 :: GoesOn(steps[k]))
    && (steps == [] ==> ending.Stalled?)
    && (steps != [] ==> EndsAs(ending, steps[|steps| - 1], |steps| == most))
  }

  lemma OneActionFirst(step: Step, steps: seq<Step>, updates: seq<Update>, ending: Ending, most: nat)
    requires GoesOn(step) && IsItsActions(steps, updates, ending, most) && (steps == [] ==> most == 0)
    ensures IsItsActions([step] + steps, step.value + updates, ending, most + 1)
  {
    var all := [step] + steps;
    assert all[1..] == steps;
    forall k | 0 <= k < |all| - 1 ensures GoesOn(all[k]) {
      if k > 0 { assert all[k] == steps[k - 1]; }
    }
  }

  lemma OneActionOnly(step: Step, most: nat, ending: Ending)
    requires !GoesOn(step) && EndsAs(ending, step, most == 1)
    ensures IsItsActions([step], if step.Success? then step.value else [], ending, most)
  {
    var shown := if step.Success? then step.value else [];
    assert shown + [] == shown;
  }

  lemma {:induction false} DriveTraced(settings: Settings, s: State, worlds: seq<World>)
    ensures var driven := Drive(settings, s, worlds);
            IsItsActions(Trace(settings, s, worlds), driven.updates, driven.ending, |worlds|)
    decreases |worlds|
  {
    if worlds != [] {
      var (s', step) := Advance(settings, s, worlds[0]);
      if GoesOn(step) {
        DriveTraced(settings, s', worlds[1..]);
        var rest := Drive(settings, s', worlds[1..]);
        OneActionFirst(step, Trace(settings, s', worlds[1..]), rest.updates, rest.ending, |worlds| - 1);
      } else {
        assert [step] + [] == [step];
        OneActionOnly(step, |worlds|, Drive(settings, s, worlds).ending);
      }
    }
  }

  lemma {:induction false} DriveReaches(settings: Settings, s: State, worlds: seq<World>)
    ensures Drive(settings, s, worlds).state == After(settings, s, worlds, |Trace(settings, s, worlds)|)
    decreases |worlds|
  {
    if worlds != [] && GoesOn(Advance(settings, s, worlds[0]).1) {
      DriveReaches(settings, Advance(settings, s, worlds[0]).0, worlds[1..]);
    }
  }

  /** The `k`th of them is what the run, as it stood after those before, did next. */
  lemma {:induction false} TraceIsTheActions(settings: Settings, s: State, worlds: seq<World>, k: nat)
    requires k < |Trace(settings, s, worlds)|
    ensures Trace(settings, s, worlds)[k] == Advance(settings, After(settings, s, worlds, k), worlds[k]).1
    decreases k
  {
    if k > 0 {
      TraceIsTheActions(settings, Advance(settings, s, worlds[0]).0, worlds[1..], k - 1);
    }
  }

  /** A driven run is its actions, taken one after another up to the first that fails or finishes: it comes to
      where they leave it, shows everything they show, in order, and ends as the last of them does. */
  lemma DriveIsItsActions(settings: Settings, s: State, worlds: seq<World>)
    ensures var driven, steps := Drive(settings, s, worlds), Trace(settings, s, worlds);
            && driven.state == After(settings, s, worlds, |steps|)
            && IsItsActions(steps, driven.updates, driven.ending, |worlds|)
  {
    DriveReaches(settings, s, worlds);
    DriveTraced(settings, s, worlds);
  }

  lemma OngoingIsPrepared(settings: Settings, s: State, world: World)
    requires Advance(settings, s, world).1.Success?
    ensures Advance(settings, s, world).0.prepared
  {
    if s.prepared {
      AdvanceStaysPrepared(settings, s, world);
    } else {
      FirstActionFixesTools(settings, s, world);
    }
  }

  /** An answer a run has recorded: by which action, and nothing that was there before is changed. */
  ghost predicate AnswersRecorded(settings: Settings, s: State, worlds: seq<World>, log: seq<Message>) {
    && s.log <= log
    && forall i | |s.log| <= i < |log| && log[i].role == Tool ::
         exists k: nat :: RecordedBy(settings, s, worlds, k, log[i])
  }

  lemma RecordedFirst(settings: Settings, s: State, worlds: seq<World>)
    requires worlds != [] && Lawful(worlds[0]) && Unstarted(s)
    ensures AnswersRecorded(settings, s, worlds, Advance(settings, s, worlds[0]).0.log)
  {
    var log := Advance(settings, s, worlds[0]).0.log;
    ActionAnswersComeFrom(settings, s, worlds[0]);
    forall i | |s.log| <= i < |log| && log[i].role == Tool
      ensures exists k: nat :: RecordedBy(settings, s, worlds, k, log[i])
    {
      assert AnswerComesFrom(settings, After(settings, s, worlds, 0), worlds[0], log[i]);
      assert RecordedBy(settings, s, worlds, 0, log[i]);
    }
  }

  lemma RecordedOnward(settings: Settings, s: State, worlds: seq<World>, log: seq<Message>)
    requires worlds != [] && AnswersRecorded(settings, s, worlds, Advance(settings, s, worlds[0]).0.log)
    requires AnswersRecorded(settings, Advance(settings, s, worlds[0]).0, worlds[1..], log)
    ensures AnswersRecorded(settings, s, worlds, log)
  {
    var s1 := Advance(settings, s, worlds[0]).0;
    forall i | |s.log| <= i < |log| && log[i].role == Tool
      ensures exists k: nat :: RecordedBy(settings, s, worlds, k, log[i])
    {
      if i < |s1.log| {
        assert log[i] == s1.log[i];
      } else {
        var k: nat :| RecordedBy(settings, s1, worlds[1..], k, log[i]);
        RecordedLater(settings, s, worlds, k, log[i]);
      }
    }
  }

  /** Every answer a run records was recorded by one of its actions: the registry's own answer to the call
      then announced, or an error. */
  lemma {:induction false} RunAnswersComeFrom(settings: Settings, s: State, worlds: seq<World>)
    requires Unstarted(s) && forall world | world in worlds :: Lawful(world)
    ensures AnswersRecorded(settings, s, worlds, Drive(settings, s, worlds).state.log)
    decreases |worlds|
  {
    if worlds != [] {
      assert worlds[0] in worlds && forall world | world in worlds[1..] :: world in worlds;
      RecordedFirst(settings, s, worlds);
      var (s1, step) := Advance(settings, s, worlds[0]);
      if step.Success? && !HasFinished(step.value) {
        OngoingIsPrepared(settings, s, worlds[0]);
        RunAnswersComeFrom(settings, s1, worlds[1..]);
        RecordedOnward(settings, s, worlds, Drive(settings, s1, worlds[1..]).state.log);
      }
    }
  }

  lemma AnswerIsRealOrAnError(settings: Settings, s: State, worlds: seq<World>, k: nat, message: Message)
    requires RecordedBy(settings, s, worlds, k, message)
    ensures |message.content| == 1 && message.content[0].Outcome?
    ensures message.content[0].isError
            || worlds[k].invoked == Success(ToolOutcome(message.content[0].content, message.content[0].isError))
  {
  }

  /** What a model is told a tool said is what the registry said for a call of that id, made to a tool the run
      had, or else is marked an error. */
  lemma OutcomesAreTheRegistrys(settings: Settings, input: seq<ContentPart>, log: seq<Message>, worlds: seq<World>)
    requires forall world | world in worlds :: Lawful(world)
    ensures var s, log' := Fresh(input, log), Drive(settings, Fresh(input, log), worlds).state.log;
            && log <= log'
            && forall i | |log| <= i < |log'| && log'[i].role == Tool ::
                 && |log'[i].content| == 1 && log'[i].content[0].Outcome?
                 && (!log'[i].content[0].isError ==>
                       exists k | 0 <= k < |worlds| ::
                         && worlds[k].invoked == Success(ToolOutcome(log'[i].content[0].content, false))
                         && After(settings, s, worlds, k).running.Some?
                         && After(settings, s, worlds, k).running.value.callId == log'[i].content[0].callId
                         && After(settings, s, worlds, k).running.value.name in After(settings, s, worlds, k).available)
  {
    var s := Fresh(input, log);
    var log' := Drive(settings, s, worlds).state.log;
    RunAnswersComeFrom(settings, s, worlds);
    forall i | |log| <= i < |log'| && log'[i].role == Tool
      ensures |log'[i].content| == 1 && log'[i].content[0].Outcome?
      ensures !log'[i].content[0].isError ==>
                exists k | 0 <= k < |worlds| ::
                  && worlds[k].invoked == Success(ToolOutcome(log'[i].content[0].content, false))
                  && After(settings, s, worlds, k).running.Some?
                  && After(settings, s, worlds, k).running.value.callId == log'[i].content[0].callId
                  && After(settings, s, worlds, k).running.value.name in After(settings, s, worlds, k).available
    {
      var k: nat :| RecordedBy(settings, s, worlds, k, log'[i]);
      AnswerIsRealOrAnError(settings, s, worlds, k, log'[i]);
      if !log'[i].content[0].isError {
        assert IsRegistrysAnswer(After(settings, s, worlds, k), worlds[k], log'[i]);
      }
    }
  }

  // ---- What a run may call ----

  ghost predicate CallsOnlyItsOwn(s: State) {
    forall call | call in s.invocations :: s.prepared && call.name in s.available
  }

  lemma CallsItsOwn(settings: Settings, s: State, world: World)
    requires s.prepared && CallsOnlyItsOwn(s)
    ensures CallsOnlyItsOwn(Advance(settings, s, world).0)
  {
    AdvanceStaysPrepared(settings, s, world);
    AdvanceFixesTools(settings, s, world);
    AdvanceInvokesOne(settings, s, world);
  }

  lemma AdvanceInvokesOne(settings: Settings, s: State, world: World)
    requires s.prepared
    ensures var s' := Advance(settings, s, world).0;
            forall call | call in s'.invocations ::
              call in s.invocations || (s.running == Some(call) && call.name in s.available)
  {
    if !MayAct(settings, world.before) {
      AStoppedRunStartsNothing(settings, s, world);
    } else if s.running.Some? {
      CallInvokesOne(settings, s, world);
    } else if s.pending != [] {
      TheFirstPendingCallIsAnnounced(settings, s, world);
    } else {
      TurnInvokesNone(settings, s, world);
    }
  }

  lemma CallInvokesOne(settings: Settings, s: State, world: World)
    requires s.prepared && s.running.Some? && MayAct(settings, world.before)
    ensures Advance(settings, s, world).0.invocations
         == s.invocations + if s.running.value.name in s.available then [s.running.value] else []
  {
    assert s.invocations + [] == s.invocations;
    if s.running.value.name !in s.available {
      var output, text := AnUnavailableCallIsNotMade(settings, s, world);
    } else if world.invoked.Success? {
      AnAnsweredCallIsRecorded(settings, s, world);
    } else {
      var output := AFailedCallIsToldOf(settings, s, world);
    }
  }

  lemma TurnInvokesNone(settings: Settings, s: State, world: World)
    requires s.prepared && s.running.None? && s.pending == [] && MayAct(settings, world.before)
    ensures Advance(settings, s, world).0.invocations == s.invocations
  {
    ATurnIsTaken(settings, s, world);
  }

  lemma {:induction false} PreparedRunCallsItsOwn(settings: Settings, s: State, worlds: seq<World>)
    requires s.prepared && CallsOnlyItsOwn(s)
    ensures var s' := Drive(settings, s, worlds).state;
            s'.prepared && s'.available == s.available && CallsOnlyItsOwn(s')
    decreases |worlds|
  {
    DriveKeepsTools(settings, s, worlds);
    if worlds != [] {
      CallsItsOwn(settings, s, worlds[0]);
      AdvanceStaysPrepared(settings, s, worlds[0]);
      var (s1, step) := Advance(settings, s, worlds[0]);
      if step.Success? && !HasFinished(step.value) {
        PreparedRunCallsItsOwn(settings, s1, worlds[1..]);
      }
    }
  }

  /** The tools of a run, once it is prepared, are those its registry listed at the first action that its
      settings allow, in the order listed; it has called no others, and none its settings do not allow. */
  lemma ToolsAreTheAllowedOnes(settings: Settings, input: seq<ContentPart>, log: seq<Message>, worlds: seq<World>)
    ensures var s' := Drive(settings, Fresh(input, log), worlds).state;
            && (s'.prepared ==>
                  && worlds != [] && worlds[0].listed.Success?
                  && s'.available == Filter(worlds[0].listed.value, MayCall(settings.allowed))
                  && forall name :: name in s'.available
                                    <==> name in worlds[0].listed.value
                                         && (settings.allowed.None? || name in settings.allowed.value))
            && (forall call | call in s'.invocations :: s'.prepared && call.name in s'.available)
            && (settings.allowed.Some? ==> forall call | call in s'.invocations :: call.name in settings.allowed.value)
  {
    var s := Fresh(input, log);
    if worlds != [] {
      var world := worlds[0];
      var (s1, step) := Advance(settings, s, world);
      FirstToolsAreTheAllowedOnes(settings, s, world);
      if step.Success? && !HasFinished(step.value) {
        OngoingIsPrepared(settings, s, world);
        PreparedRunCallsItsOwn(settings, s1, worlds[1..]);
      }
    }
  }

  lemma FirstToolsAreTheAllowedOnes(settings: Settings, s: State, world: World)
    requires !s.prepared && s.running.None? && s.pending == [] && s.invocations == []
    ensures var s' := Advance(settings, s, world).0;
            && (s'.prepared ==>
                  && world.listed.Success?
                  && s'.available == Filter(world.listed.value, MayCall(settings.allowed))
                  && forall name :: name in s'.available
                                    <==> name in world.listed.value
                                         && (settings.allowed.None? || name in settings.allowed.value))
            && s'.invocations == []
  {
    if !MayAct(settings, world.before) {
      AStoppedRunStartsNothing(settings, s, world);
    } else if MayPrepare(settings, s, world) {
      TheFirstActionPrepares(settings, s, world);
      var prepared := Prepared(settings, s, world);
      AdvanceFixesTools(settings, prepared, world);
      AdvanceInvokesOne(settings, prepared, world);
      FilterMembers(world.listed.value, MayCall(settings.allowed));
      var s' := Advance(settings, s, world).0;
      EmptyHasNone(s'.invocations);
    } else {
      FailingToPrepareFails(settings, s, world);
    }
  }

  // ---- What a run answers ----

  /** If the run has finished, its transcript's last word is what it answers, whole, with the usage told. */
  ghost predicate AnswersItsLastWord(s: State, step: Step) {
    step.Success? && HasFinished(step.value) ==>
      var last := step.value[|step.value| - 1];
      && s.log != [] && s.log[|s.log| - 1] == Message(Assistant, last.output)
      && last.usage == if s.usageReported then Some(s.usage) else None
  }

  lemma ReplyIsTheLastWord(s: State, reply: Message, s': State, step: Step)
    requires reply.role == Assistant && TakesReply(s, reply, s', step)
    ensures AnswersItsLastWord(s', step)
  {
    NoCallsShownWhole(reply.content);
  }

  lemma TurnAnswers(settings: Settings, s: State, world: World)
    requires Lawful(world) && s.prepared && s.running.None? && s.pending == [] && MayAct(settings, world.before)
    ensures AnswersItsLastWord(Advance(settings, s, world).0, Advance(settings, s, world).1)
  {
    ATurnIsTaken(settings, s, world);
    var (s', step) := Advance(settings, s, world);
    if step.Success? {
      var roomy := WithRoom(settings, s, world.dropped.value, world.compaction);
      ReplyIsTheLastWord(WithTurn(roomy, world.completion.value.usage), world.completion.value.message, s', step);
    }
  }

  lemma {:induction false} NoCallsShownWhole(content: seq<ContentPart>)
    ensures (forall i | 0 <= i < |content| :: !content[i].Call?) ==>
              Filter(content, (p: ContentPart) => !p.Call?) == content
  {
    if content != [] {
      NoCallsShownWhole(content[1..]);
      assert forall i | 0 <= i < |content| - 1 :: content[1..][i] == content[i + 1];
    }
  }

  lemma CallsDoNotAnswer(settings: Settings, s: State, world: World)
    requires s.prepared && MayAct(settings, world.before) && (s.running.Some? || s.pending != [])
    ensures var step := Advance(settings, s, world).1; step.Success? ==> !HasFinished(step.value)
  {
    if s.running.None? {
      TheFirstPendingCallIsAnnounced(settings, s, world);
    } else if s.running.value.name !in s.available {
      var output, text := AnUnavailableCallIsNotMade(settings, s, world);
    } else if world.invoked.Success? {
      AnAnsweredCallIsRecorded(settings, s, world);
    } else {
      var output := AFailedCallIsToldOf(settings, s, world);
    }
  }

  lemma ActionAnswers(settings: Settings, s: State, world: World)
    requires Lawful(world) && Unstarted(s)
    ensures AnswersItsLastWord(Advance(settings, s, world).0, Advance(settings, s, world).1)
  {
    if !MayAct(settings, world.before) {
      AStoppedRunStartsNothing(settings, s, world);
    } else if !s.prepared {
      if MayPrepare(settings, s, world) {
        TheFirstActionPrepares(settings, s, world);
        TurnAnswers(settings, Prepared(settings, s, world), world);
      } else {
        FailingToPrepareFails(settings, s, world);
      }
    } else if s.running.Some? || s.pending != [] {
      CallsDoNotAnswer(settings, s, world);
    } else {
      TurnAnswers(settings, s, world);
    }
  }

  /** What a run answers is the last thing its transcript says, whole, and the usage is what its turns told. */
  lemma {:induction false} AnswerIsTheLastWord(settings: Settings, s: State, worlds: seq<World>)
    requires Unstarted(s) && forall world | world in worlds :: Lawful(world)
    requires Drive(settings, s, worlds).ending.Answered?
    ensures var driven := Drive(settings, s, worlds);
            && driven.state.log != []
            && driven.state.log[|driven.state.log| - 1] == Message(Assistant, driven.ending.output)
            && driven.ending.usage == if driven.state.usageReported then Some(driven.state.usage) else None
    decreases |worlds|
  {
    assert worlds[0] in worlds && forall world | world in worlds[1..] :: world in worlds;
    var (s1, step) := Advance(settings, s, worlds[0]);
    ActionAnswers(settings, s, worlds[0]);
    if !HasFinished(step.value) {
      OngoingIsPrepared(settings, s, worlds[0]);
      AnswerIsTheLastWord(settings, s1, worlds[1..]);
    }
  }
}
