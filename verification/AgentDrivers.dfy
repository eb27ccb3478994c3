/** What a whole run may spend, how it ends, and what a session of runs leaves in the transcript. */
module AgentDrivers {
  import opened Wrappers
  import opened Conversation
  import opened AgentRun

  // ---- Spending ----

  /** What holds between actions. */
  ghost predicate Bounded(settings: Settings, s: State) {
    && s.turns <= settings.maxTurns
    && s.toolCalls <= settings.maxToolCalls
    && s.modelCalls == s.turns
    && |s.invocations| + (if s.running.Some? then 1 else 0) <= s.toolCalls
    && (forall call | call in s.invocations :: call.name in s.available)
    && s.compactions <= s.turns + (if s.prepared then 1 else 0)
    && (!s.prepared ==> s.turns == 0 && s.toolCalls == 0 && s.running.None?)
  }

  /** What holds however an action ended: no more model calls than turns allowed, no more invocations
      than calls allowed, every one of a tool fixed at preparation, and one compaction at preparation
      and one a turn at most. */
  ghost predicate WithinLimits(settings: Settings, s: State) {
    && s.modelCalls <= settings.maxTurns
    && |s.invocations| <= settings.maxToolCalls
    && (forall call | call in s.invocations :: call.name in s.available)
    && s.compactions <= settings.maxTurns + 1
    && s.compactions <= s.turns + 2
  }

  /** An upper bound on the actions a run has left. */
  function Measure(settings: Settings, s: State): int {
    (settings.maxTurns - s.turns) + 2 * (settings.maxToolCalls - s.toolCalls) + (if s.running.Some? then 1 else 0)
  }

  lemma MakeRoomSpends(settings: Settings, s: State, dropped: nat, compaction: Compaction)
    ensures var s' := MakeRoom(settings, s, dropped, compaction).0;
            && s.compactions <= s'.compactions <= s.compactions + 1
            && s' == s.(log := s'.log, compactions := s'.compactions, compacting := s'.compacting)
  {
  }

  lemma RoomStageSpends(settings: Settings, s: State, world: World)
    ensures var s' := RoomStage(settings, s, world).0;
            && s.compactions <= s'.compactions <= s.compactions + 1
            && s' == s.(log := s'.log, compactions := s'.compactions, compacting := s'.compacting)
  {
    if world.droppedAtStart.Success? {
      MakeRoomSpends(settings, s, world.droppedAtStart.value, world.compactionAtStart);
    }
  }

  /** Preparing writes, lists tools and compacts at most once. */
  lemma PrepareSpends(settings: Settings, s: State, world: World)
    ensures var s' := Prepare(settings, s, world).0;
            && s.compactions <= s'.compactions <= s.compactions + 1
            && s' == s.(input := s'.input, available := s'.available, log := s'.log, compactions := s'.compactions,
                        compacting := s'.compacting)
  {
    if world.listed.Success? {
      var s0 := s.(available := Allowed(settings, world.listed.value));
      var s1 := PromptStage(settings, s0, world).0;
      assert s1 == s0.(log := s1.log);
      RoomStageSpends(settings, s1, world);
    }
  }

  lemma PrepareBounded(settings: Settings, s: State, world: World)
    requires Bounded(settings, s) && !s.prepared
    ensures var s' := EnsurePrepared(settings, s, world).0;
            && (EnsurePrepared(settings, s, world).1.None? ==> Bounded(settings, s') && s'.prepared)
            && WithinLimits(settings, s')
            && Measure(settings, s') == Measure(settings, s)
            && s'.pending == s.pending
  {
    PrepareSpends(settings, s, world);
  }

  lemma CompletedSpends(settings: Settings, s: State, world: World)
    ensures var (s', step) := Completed(settings, s, world);
            && s'.modelCalls == s.modelCalls + 1
            && s'.turns == (if world.completion.Success? then s.turns + 1 else s.turns)
            && (step.Success? ==> world.completion.Success?)
            && s'.toolCalls == s.toolCalls && s'.running == s.running && s'.invocations == s.invocations
            && s'.available == s.available && s'.compactions == s.compactions && s'.prepared == s.prepared
  {
  }

  lemma TurnBounded(settings: Settings, s: State, world: World)
    requires Bounded(settings, s) && s.prepared && s.running.None?
    ensures var (s', step) := Turn(settings, s, world);
            && (step.Success? ==> Bounded(settings, s') && Measure(settings, s') < Measure(settings, s))
            && WithinLimits(settings, s')
  {
    if world.dropped.Success? {
      MakeRoomSpends(settings, s, world.dropped.value, world.compaction);
      CompletedSpends(settings, MakeRoom(settings, s, world.dropped.value, world.compaction).0, world);
    }
  }

  lemma CallToolBounded(settings: Settings, s: State, world: World)
    requires Bounded(settings, s) && s.prepared && s.running.Some?
    ensures var (s', step) := CallTool(settings, s, world);
            && Bounded(settings, s') && Measure(settings, s') < Measure(settings, s)
            && WithinLimits(settings, s')
  {
    CallToolSpends(settings, s, world);
    CallToolInvokesOne(settings, s, world);
  }

  lemma CallToolInvokesOne(settings: Settings, s: State, world: World)
    requires s.running.Some?
    ensures |CallTool(settings, s, world).0.invocations| <= |s.invocations| + 1
  {
  }

  lemma ActBounded(settings: Settings, s: State, world: World)
    requires Bounded(settings, s) && s.prepared
    ensures var (s', step) := Act(settings, s, world);
            && (step.Success? ==> Bounded(settings, s') && Measure(settings, s') < Measure(settings, s))
            && WithinLimits(settings, s')
  {
    if s.running.Some? {
      CallToolBounded(settings, s, world);
    } else if s.pending == [] {
      TurnBounded(settings, s, world);
    }
  }

  lemma AbandonSpendsNothing(settings: Settings, s: State, reason: Error)
    requires WithinLimits(settings, s)
    ensures WithinLimits(settings, Abandon(s, reason))
  {
  }

  /** Every action stays within what the run may spend, and every one that succeeds leaves fewer. */
  lemma AdvanceBounded(settings: Settings, s: State, world: World)
    requires Bounded(settings, s)
    ensures var (s', step) := Advance(settings, s, world);
            && (step.Success? ==> Bounded(settings, s') && 0 <= Measure(settings, s') < Measure(settings, s))
            && WithinLimits(settings, s')
  {
    if !s.prepared {
      PrepareBounded(settings, s, world);
    }
    var (s1, failed) := EnsurePrepared(settings, s, world);
    if failed.None? {
      ActBounded(settings, s1, world);
    }
    var (s', step) := TakeStep(settings, s, world);
    if step.Failure? {
      AbandonSpendsNothing(settings, s', step.error);
    }
  }

  /** The tools a run may call are fixed once it is prepared, and once a compaction came back empty or
      failed no action asks for another. */
  lemma ActFixesTools(settings: Settings, s: State, world: World)
    ensures var s' := Act(settings, s, world).0;
            && s'.available == s.available
            && (!s.compacting ==> !s'.compacting && s'.compactions == s.compactions)
  {
    if s.running.Some? {
      CallToolSpends(settings, s, world);
    } else if s.pending != [] {
      AnnounceSpends(settings, s);
    } else {
      TurnFixesTools(settings, s, world);
    }
  }

  lemma CallToolSpends(settings: Settings, s: State, world: World)
    requires s.running.Some?
    ensures var s' := CallTool(settings, s, world).0;
            s' == s.(running := None, log := s'.log, invocations := s'.invocations)
  {
  }

  lemma AnnounceSpends(settings: Settings, s: State)
    requires s.pending != []
    ensures var s' := Announce(settings, s).0;
            s' == s.(pending := s'.pending, toolCalls := s'.toolCalls, running := s'.running)
  {
  }

  lemma TurnFixesTools(settings: Settings, s: State, world: World)
    ensures var s' := Turn(settings, s, world).0;
            && s'.available == s.available
            && (!s.compacting ==> !s'.compacting && s'.compactions == s.compactions)
  {
    if world.dropped.Success? {
      MakeRoomSpends(settings, s, world.dropped.value, world.compaction);
      CompletedSpends(settings, MakeRoom(settings, s, world.dropped.value, world.compaction).0, world);
      CompletedCompactsNothing(settings, MakeRoom(settings, s, world.dropped.value, world.compaction).0, world);
    }
  }

  lemma CompletedCompactsNothing(settings: Settings, s: State, world: World)
    ensures Completed(settings, s, world).0.compacting == s.compacting
  {
  }

  lemma AdvanceFixesTools(settings: Settings, s: State, world: World)
    requires s.prepared
    ensures var s' := Advance(settings, s, world).0;
            && s'.available == s.available
            && (!s.compacting ==> !s'.compacting && s'.compactions == s.compactions)
  {
    ActFixesTools(settings, s, world);
  }

  // ---- Driving ----

  datatype Ending = Stalled | Answered(output: seq<ContentPart>, usage: Option<Usage>) | Failed(error: Error)

  datatype Driven = Driven(state: State, updates: seq<Update>, ending: Ending)

  predicate HasFinished(updates: seq<Update>) {
    updates != [] && updates[|updates| - 1].Finished?
  }

  /** A run advanced until it finishes or fails, or its surroundings stop answering. */
  function Drive(settings: Settings, s: State, worlds: seq<World>): Driven
    decreases |worlds|
  {
    if worlds == [] then Driven(s, [], Stalled)
    else
      var (s', step) := Advance(settings, s, worlds[0]);
      match step
      case Failure(error) => Driven(s', [], Failed(error))
      case Success(updates) =>
        if HasFinished(updates) then
          var last := updates[|updates| - 1];
          Driven(s', updates, Answered(last.output, last.usage))
        else
          var rest := Drive(settings, s', worlds[1..]);
          rest.(updates := updates + rest.updates)
  }

  /** The most actions a run can take. */
  function MostActions(settings: Settings): nat {
    settings.maxTurns + 2 * settings.maxToolCalls + 1
  }

  lemma {:induction false} DriveEnds(settings: Settings, s: State, worlds: seq<World>)
    requires Bounded(settings, s) && Measure(settings, s) < |worlds|
    ensures !Drive(settings, s, worlds).ending.Stalled?
    ensures WithinLimits(settings, Drive(settings, s, worlds).state)
    decreases |worlds|
  {
    AdvanceBounded(settings, s, worlds[0]);
    var (s', step) := Advance(settings, s, worlds[0]);
    if step.Success? && !HasFinished(step.value) {
      DriveEnds(settings, s', worlds[1..]);
    }
  }

  lemma {:induction false} AnsweredRounds(settings: Settings, s: State, worlds: seq<World>)
    requires Bounded(settings, s) && Drive(settings, s, worlds).ending.Answered?
    ensures var s' := Drive(settings, s, worlds).state;
            s'.compactions <= s'.turns + 1
    decreases |worlds|
  {
    AdvanceBounded(settings, s, worlds[0]);
    var (s', step) := Advance(settings, s, worlds[0]);
    if step.Success? && !HasFinished(step.value) {
      AnsweredRounds(settings, s', worlds[1..]);
    }
  }

  /** Every run ends within max_turns + 2 * max_tool_calls + 1 actions, within its limits; one that
      answers has asked for at most one round of compaction a turn and one before. */
  lemma EveryRunEnds(settings: Settings, input: seq<ContentPart>, log: seq<Message>, worlds: seq<World>)
    requires |worlds| >= MostActions(settings)
    ensures var driven := Drive(settings, Fresh(input, log), worlds);
            && !driven.ending.Stalled? && WithinLimits(settings, driven.state)
            && (driven.ending.Answered? ==> driven.state.compactions <= driven.state.turns + 1)
  {
    var begun := Fresh(input, log);
    DriveEnds(settings, begun, worlds);
    if Drive(settings, begun, worlds).ending.Answered? {
      AnsweredRounds(settings, begun, worlds);
    }
  }

  lemma {:induction false} DriveKeepsOrder(settings: Settings, s: State, worlds: seq<World>)
    requires Ready(s) && forall world | world in worlds :: Lawful(world)
    ensures var driven := Drive(settings, s, worlds);
            !driven.ending.Stalled? ==> Unanswered(driven.state.log) == Some([])
    decreases |worlds|
  {
    if worlds != [] {
      AdvanceKeepsOrder(settings, s, worlds[0]);
      var (s', step) := Advance(settings, s, worlds[0]);
      if step.Success? && !HasFinished(step.value) {
        assert forall world | world in worlds[1..] :: world in worlds;
        DriveKeepsOrder(settings, s', worlds[1..]);
      }
    }
  }

  // ---- Sessions ----

  datatype Request = Request(settings: Settings, input: seq<ContentPart>, worlds: seq<World>)

  ghost predicate Serviceable(request: Request) {
    && |request.worlds| >= MostActions(request.settings)
    && forall world | world in request.worlds :: Lawful(world)
  }

  /** The transcript after runs taken one after another in one session. */
  function SessionLog(log: seq<Message>, requests: seq<Request>): seq<Message>
    decreases |requests|
  {
    if requests == [] then log
    else SessionLog(Drive(requests[0].settings, Fresh(requests[0].input, log), requests[0].worlds).state.log,
                    requests[1..])
  }

  lemma {:induction false} SessionStaysInOrder(log: seq<Message>, requests: seq<Request>)
    requires Unanswered(log) == Some([])
    requires forall request | request in requests :: Serviceable(request)
    ensures Unanswered(SessionLog(log, requests)) == Some([])
    decreases |requests|
  {
    if requests != [] {
      var request := requests[0];
      assert Serviceable(request);
      EveryRunEnds(request.settings, request.input, log, request.worlds);
      DriveKeepsOrder(request.settings, Fresh(request.input, log), request.worlds);
      assert forall r | r in requests[1..] :: r in requests;
      SessionStaysInOrder(Drive(request.settings, Fresh(request.input, log), request.worlds).state.log, requests[1..]);
    }
  }

  /** Whatever runs a session sees and however each of them ends, every tool call in its transcript is
      answered by exactly one result, in call order, before anything else is said. */
  lemma SessionAnswersEveryCall(requests: seq<Request>)
    requires forall request | request in requests :: Serviceable(request)
    ensures EveryCallAnswered(SessionLog([], requests))
  {
    SessionStaysInOrder([], requests);
    NothingOpenMeansAnswered(SessionLog([], requests));
  }
}
