/** What one action of a run does, said of the run's own fields, its transcript and what its surroundings
    answered. */
module AgentActions {
  import opened Wrappers
  import opened JsonValues
  import opened Conversation
  import opened Ordering
  import opened Arithmetic
  import opened Words
  import opened AgentRun

  /** Nothing stops the run from starting its next action. */
  predicate MayAct(settings: Settings, moment: Moment) {
    !moment.cancelled && (settings.deadline.Some? ==> moment.now < settings.deadline.value)
  }

  /** A stopped run says which of the two stopped it, cancellation first. */
  predicate SaysWhatStopped(settings: Settings, moment: Moment, error: Error) {
    if moment.cancelled then error.kind == Cancelled
    else settings.deadline.Some? && settings.deadline.value <= moment.now && error.kind == Timeout
  }

  /** How a model is told of an error. */
  predicate TellsOf(output: Json, kind: ErrorKind, message: string) {
    && output.Object? && output.fields.Keys == {"kind", "message"}
    && output.fields["message"] == Str(message)
    && output.fields["kind"] == Str(match kind
                                    case Cancelled => "cancelled"
                                    case Timeout => "timeout"
                                    case Permission => "permission"
                                    case NotFound => "notfound"
                                    case OtherKind => "other")
  }

  // ---- Outstanding calls ----

  /** A closing answer to a call: an error that tells of what stopped the run. */
  predicate ClosesOff(message: Message, callId: string, kind: ErrorKind) {
    && message.role == Tool && |message.content| == 1 && message.content[0].Outcome?
    && message.content[0].callId == callId && message.content[0].isError
    && message.content[0].content.Object?
    && "message" in message.content[0].content.fields && message.content[0].content.fields["message"].Str?
    && TellsOf(message.content[0].content, kind, message.content[0].content.fields["message"].text)
  }

  /** From `s`, whose transcript has since come to `log`, the run has been stopped: the announced call and
      then the pending ones are closed off, one by one, and none is left. */
  ghost predicate AllClosedOff(s: State, log: seq<Message>, s': State, kind: ErrorKind) {
    var owed := (if s.running.Some? then [s.running.value] else []) + s.pending;
    && s'.running == None && s'.pending == []
    && |s'.log| == |log| + |owed| && log <= s'.log
    && forall i | 0 <= i < |owed| :: ClosesOff(s'.log[|log| + i], owed[i].callId, kind)
  }

  lemma {:induction false} AbandonedOneByOne(calls: seq<ToolCall>, reason: Error, i: nat)
    requires i < |calls|
    ensures |AbandonedAll(calls, reason)| == |calls|
    ensures ClosesOff(AbandonedAll(calls, reason)[i], calls[i].callId, reason.kind)
  {
    if |calls| > 1 {
      AbandonedOneByOne(calls[1..], reason, if i > 0 then i - 1 else 0);
    }
  }

  lemma AbandonClosesOff(s: State, reason: Error)
    ensures AllClosedOff(s, s.log, Abandon(s, reason), reason.kind)
    ensures Abandon(s, reason) == s.(running := None, pending := [], log := Abandon(s, reason).log)
  {
    var owed := Outstanding(s);
    forall i | 0 <= i < |owed|
      ensures |AbandonedAll(owed, reason)| == |owed|
      ensures ClosesOff(AbandonedAll(owed, reason)[i], owed[i].callId, reason.kind)
    {
      AbandonedOneByOne(owed, reason, i);
    }
  }

  // ---- A run that is stopped ----

  /** A cancelled or expired run starts nothing: it fails as what stopped it, and only its outstanding calls
      are closed off. */
  lemma AStoppedRunStartsNothing(settings: Settings, s: State, world: World)
    requires !MayAct(settings, world.before)
    ensures var (s', step) := Advance(settings, s, world);
            && step.Failure? && SaysWhatStopped(settings, world.before, step.error)
            && AllClosedOff(s, s.log, s', step.error.kind)
            && s' == s.(running := None, pending := [], log := s'.log)
  {
    AbandonClosesOff(s, Guard(settings, world.before).value);
  }

  lemma MayActPasses(settings: Settings, moment: Moment)
    ensures MayAct(settings, moment) <==> Guard(settings, moment).None?
    ensures !MayAct(settings, moment) ==> SaysWhatStopped(settings, moment, Guard(settings, moment).value)
  {
  }

  // ---- A call ----

  /** A call the registry answers is recorded as it was answered, and the caller is shown the same. */
  lemma AnAnsweredCallIsRecorded(settings: Settings, s: State, world: World)
    requires s.prepared && s.running.Some? && MayAct(settings, world.before)
    requires s.running.value.name in s.available && world.invoked.Success?
    ensures var (s', step) := Advance(settings, s, world);
            var (id, answer) := (s.running.value.callId, world.invoked.value);
            && s' == s.(running := None, log := s.log + [Message(Tool, [Outcome(id, answer.output, answer.isError)])],
                        invocations := s.invocations + [s.running.value])
            && step == Success([CallFinished(id, answer)])
  {
    MayActPasses(settings, world.before);
  }

  /** A call that fails is recorded as an error telling of the failure. The run goes on, unless it was itself
      stopped meanwhile; then it fails as what stopped it, the failure still recorded and the calls still
      pending closed off. */
  lemma AFailedCallIsToldOf(settings: Settings, s: State, world: World) returns (output: Json)
    requires s.prepared && s.running.Some? && MayAct(settings, world.before)
    requires s.running.value.name in s.available && world.invoked.Failure?
    ensures var (s', step) := Advance(settings, s, world);
            var id, error := s.running.value.callId, world.invoked.error;
            && TellsOf(output, error.kind, error.message)
            && s'.invocations == s.invocations + [s.running.value]
            && var log := s.log + [Message(Tool, [Outcome(id, output, true)])];
               if MayAct(settings, world.after) then
                 && s' == s.(running := None, log := log, invocations := s'.invocations)
                 && step == Success([CallFinished(id, ToolOutcome(output, true))])
               else
                 && step.Failure? && SaysWhatStopped(settings, world.after, step.error)
                 && AllClosedOff(s.(running := None), log, s', step.error.kind)
                 && s' == s.(running := None, pending := [], log := s'.log, invocations := s'.invocations)
  {
    MayActPasses(settings, world.before);
    MayActPasses(settings, world.after);
    var id, error := s.running.value.callId, world.invoked.error;
    output := Report(error.kind, error.message);
    var recorded := s.(running := None, invocations := s.invocations + [s.running.value],
                       log := s.log + [Message(Tool, [Outcome(id, output, true)])]);
    assert CallTool(settings, s, world).0 == recorded;
    if !MayAct(settings, world.after) {
      AbandonClosesOff(recorded, Guard(settings, world.after).value);
    }
  }

  /** A call to a tool the run does not have never reaches the registry, and is recorded as not found. */
  lemma AnUnavailableCallIsNotMade(settings: Settings, s: State, world: World) returns (output: Json, text: string)
    requires s.prepared && s.running.Some? && MayAct(settings, world.before)
    requires s.running.value.name !in s.available
    ensures var (s', step) := Advance(settings, s, world);
            var id := s.running.value.callId;
            && TellsOf(output, NotFound, text)
            && s' == s.(running := None, log := s.log + [Message(Tool, [Outcome(id, output, true)])])
            && step == Success([CallFinished(id, ToolOutcome(output, true))])
  {
    MayActPasses(settings, world.before);
    text := "no tool of that name is available to this agent";
    output := Report(NotFound, text);
  }

  // ---- An announcement ----

  /** The first pending call is announced, or at the limit the run fails with every call closed off. */
  lemma TheFirstPendingCallIsAnnounced(settings: Settings, s: State, world: World)
    requires s.prepared && s.running.None? && s.pending != [] && MayAct(settings, world.before)
    ensures var (s', step) := Advance(settings, s, world);
            if s.toolCalls < settings.maxToolCalls then
              && s' == s.(pending := s.pending[1..], running := Some(s.pending[0]), toolCalls := s.toolCalls + 1)
              && step == Success([CallAnnounced(s.pending[0])])
            else
              && step.Failure? && step.error.kind == OtherKind
              && AllClosedOff(s, s.log, s', OtherKind)
              && s' == s.(pending := [], log := s'.log)
  {
    MayActPasses(settings, world.before);
    if s.toolCalls >= settings.maxToolCalls {
      AbandonClosesOff(s, Announce(settings, s).1.error);
    }
  }

  // ---- A turn ----

  /** Whether a round of compaction is asked for when this many records are being dropped. */
  predicate AsksForRoom(settings: Settings, s: State, dropped: nat) {
    dropped > 0 && s.compacting && settings.compacts
  }

  /** A round stops the run only by finding it cancelled or expired. */
  predicate RoomStops(settings: Settings, s: State, dropped: nat, round: Compaction) {
    AsksForRoom(settings, s, dropped) && round.outcome.Failure? && round.outcome.error.kind in {Cancelled, Timeout}
  }

  /** The run once it has seen to its room: what a round wrote is in the transcript, and a round that made
      none, and did not stop the run, is the last it asks for. */
  function WithRoom(settings: Settings, s: State, dropped: nat, round: Compaction): State {
    if !AsksForRoom(settings, s, dropped) then s
    else
      s.(compactions := s.compactions + 1, log := s.log + round.recap,
         compacting := round.outcome == Success(false) || RoomStops(settings, s, dropped, round))
  }

  lemma RoomIsMade(settings: Settings, s: State, dropped: nat, round: Compaction)
    ensures var (s', room) := MakeRoom(settings, s, dropped, round);
            && s' == WithRoom(settings, s, dropped, round)
            && (room.Failure? <==> RoomStops(settings, s, dropped, round))
            && (room.Failure? ==> room.error == round.outcome.error)
            && (room.Success? ==>
                  (room.value <==> AsksForRoom(settings, s, dropped) && round.outcome == Success(false)))
  {
  }

  /** The run once its model has answered: a call and a turn counted, and the usage told added up. */
  function WithTurn(s: State, usage: Option<Usage>): State {
    var counted := s.(modelCalls := s.modelCalls + 1, turns := s.turns + 1);
    if usage.None? then counted
    else
      counted.(usage := Usage(Min(s.usage.inputTokens + usage.value.inputTokens, U64_MAX),
                              Min(s.usage.outputTokens + usage.value.outputTokens, U64_MAX)),
               usageReported := true)
  }

  /** The calls of a reply, in order. */
  predicate AreTheCalls(pending: seq<ToolCall>, content: seq<ContentPart>) {
    seq(|pending|, i requires 0 <= i < |pending| => Call(pending[i])) == Filter(content, (p: ContentPart) => p.Call?)
  }

  /** What the caller is shown of a reply: everything but its calls, in order, and that the run has finished
      if there are none. */
  predicate ShowsReply(updates: seq<Update>, content: seq<ContentPart>, usage: Option<Usage>) {
    var shown := Filter(content, (p: ContentPart) => !p.Call?);
    var asks := exists i :: 0 <= i < |content| && content[i].Call?;
    && |updates| == |shown| + (if asks then 0 else 1)
    && (forall i | 0 <= i < |shown| :: updates[i] == Content(shown[i]))
    && (!asks ==> updates[|shown|] == Finished(shown, usage))
  }

  lemma {:induction false} CallsAreFiltered(content: seq<ContentPart>)
    ensures AreTheCalls(CallsIn(content), content)
    ensures CallsIn(content) == [] <==> !exists i :: 0 <= i < |content| && content[i].Call?
  {
    if content != [] {
      var rest, calls := content[1..], CallsIn(content[1..]);
      CallsAreFiltered(rest);
      if content[0].Call? {
        var all := CallsIn(content);
        assert all == [content[0].call] + calls;
        assert seq(|all|, i requires 0 <= i < |all| => Call(all[i]))
            == [content[0]] + seq(|calls|, i requires 0 <= i < |calls| => Call(calls[i]));
      } else if i :| 0 <= i < |content| && content[i].Call? {
        assert rest[i - 1] == content[i];
      }
    }
  }

  lemma {:induction false} ShownIsFiltered(content: seq<ContentPart>)
    ensures Shown(content) == Filter(content, (p: ContentPart) => !p.Call?)
  {
    if content != [] {
      ShownIsFiltered(content[1..]);
    }
  }

  /** A reply is in the transcript, its calls are pending, and what it says is shown. */
  ghost predicate TakesReply(s: State, reply: Message, s': State, step: Step) {
    && s' == s.(log := s.log + [reply], pending := s'.pending)
    && AreTheCalls(s'.pending, reply.content)
    && step.Success? && ShowsReply(step.value, reply.content, if s.usageReported then Some(s.usage) else None)
  }

  lemma ReplyIsTaken(s: State, reply: Completion)
    requires s.pending == []
    ensures TakesReply(s, reply.message, Replied(s, reply).0, Success(Replied(s, reply).1))
  {
    CallsAreFiltered(reply.message.content);
    ShownIsFiltered(reply.message.content);
    assert [] + CallsIn(reply.message.content) == CallsIn(reply.message.content);
  }

  lemma UsageIsAdded(s: State, usage: Option<Usage>)
    ensures var called := s.(modelCalls := s.modelCalls + 1);
            Spent(called.(turns := called.turns + 1), usage) == WithTurn(s, usage)
  {
  }

  /** What becomes of asking the model. */
  ghost predicate ModelAnswers(settings: Settings, s: State, world: World, s': State, step: Step) {
    match world.completion
    case Failure(error) => s' == s.(modelCalls := s.modelCalls + 1) && step == Failure(error)
    case Success(reply) =>
      var taken := WithTurn(s, reply.usage);
      if settings.metered && world.charged.Failure? then s' == taken && step == Failure(world.charged.error)
      else if reply.cancelled then s' == taken && step.Failure? && step.error.kind == Cancelled
      else TakesReply(taken, reply.message, s', step)
  }

  /** A reply is kept: its charge recorded, if it is to be charged, and it was not cut short. */
  predicate Keeps(settings: Settings, world: World, reply: Completion) {
    !(settings.metered && world.charged.Failure?) && !reply.cancelled
  }

  lemma KeptReplyAnswers(settings: Settings, s: State, world: World)
    requires s.pending == [] && world.completion.Success? && Keeps(settings, world, world.completion.value)
    ensures ModelAnswers(settings, s, world, Completed(settings, s, world).0, Completed(settings, s, world).1)
  {
    var reply := world.completion.value;
    UsageIsAdded(s, reply.usage);
    ReplyIsTaken(WithTurn(s, reply.usage), reply);
    var replied := Replied(WithTurn(s, reply.usage), reply);
    assert Completed(settings, s, world) == (replied.0, Success(replied.1));
  }

  lemma LostReplyAnswers(settings: Settings, s: State, world: World)
    requires world.completion.Success? ==> !Keeps(settings, world, world.completion.value)
    ensures ModelAnswers(settings, s, world, Completed(settings, s, world).0, Completed(settings, s, world).1)
  {
    if world.completion.Success? {
      UsageIsAdded(s, world.completion.value.usage);
    }
  }

  lemma CompletedAnswers(settings: Settings, s: State, world: World)
    requires s.pending == []
    ensures ModelAnswers(settings, s, world, Completed(settings, s, world).0, Completed(settings, s, world).1)
  {
    if world.completion.Success? && Keeps(settings, world, world.completion.value) {
      KeptReplyAnswers(settings, s, world);
    } else {
      LostReplyAnswers(settings, s, world);
    }
  }

  /** Nothing is outstanding, so stopping closes nothing off. */
  lemma NothingToCloseOff(s: State, reason: Error)
    requires s.running.None? && s.pending == []
    ensures Abandon(s, reason) == s
  {
    assert s.log + [] == s.log;
  }

  /** A turn: refused at the limit, by the budget or for want of a window, with nothing done; stopped by the
      round it asks for, or by a window that cannot be read again after one; or put to the model. */
  lemma ATurnIsTaken(settings: Settings, s: State, world: World)
    requires s.prepared && s.running.None? && s.pending == [] && MayAct(settings, world.before)
    ensures var (s', step) := Advance(settings, s, world);
            if s.turns >= settings.maxTurns then s' == s && step.Failure? && step.error.kind == OtherKind
            else if settings.metered && world.budget.Failure? then s' == s && step == Failure(world.budget.error)
            else if world.dropped.Failure? then s' == s && step == Failure(world.dropped.error)
            else
              var dropped, round := world.dropped.value, world.compaction;
              var roomy := WithRoom(settings, s, dropped, round);
              if RoomStops(settings, s, dropped, round) then s' == roomy && step == Failure(round.outcome.error)
              else if AsksForRoom(settings, s, dropped) && round.outcome == Success(false)
                      && world.droppedAfter.Failure?
              then s' == roomy && step == Failure(world.droppedAfter.error)
              else ModelAnswers(settings, roomy, world, s', step)
  {
    MayActPasses(settings, world.before);
    var (s', step) := Turn(settings, s, world);
    if world.dropped.Success? {
      RoomIsMade(settings, s, world.dropped.value, world.compaction);
      CompletedAnswers(settings, WithRoom(settings, s, world.dropped.value, world.compaction), world);
    }
    if step.Failure? {
      FailedTurnOwesNothing(settings, s, world);
      NothingToCloseOff(s', step.error);
    }
  }

  lemma FailedTurnOwesNothing(settings: Settings, s: State, world: World)
    requires s.running.None? && s.pending == [] && Turn(settings, s, world).1.Failure?
    ensures Turn(settings, s, world).0.running.None? && Turn(settings, s, world).0.pending == []
  {
    if world.dropped.Success? {
      RoomIsMade(settings, s, world.dropped.value, world.compaction);
      FailedAnswerOwesNothing(settings, WithRoom(settings, s, world.dropped.value, world.compaction), world);
    }
  }

  lemma FailedAnswerOwesNothing(settings: Settings, s: State, world: World)
    requires s.running.None? && s.pending == []
    ensures var (s', step) := Completed(settings, s, world);
            step.Failure? ==> s'.running.None? && s'.pending == []
  {
    CompletedAnswers(settings, s, world);
  }

  // ---- Preparation ----

  /** The system prompt, if there is one and nothing has been written to the session. */
  function PromptOf(settings: Settings, world: World): seq<Message> {
    if settings.systemPrompt.Some? && world.unwritten == Success(true)
    then [Message(System, [Text(settings.systemPrompt.value)])] else []
  }

  /** What the settings allow: anything, or what they name. */
  function MayCall(allowed: Option<seq<string>>): string -> bool {
    (name: string) => allowed.None? || name in allowed.value
  }

  /** The run once it is prepared: its tools are those listed that it is allowed, in order, and the
      transcript has the prompt, what making room wrote, and then the question. */
  function Prepared(settings: Settings, s: State, world: World): State
    requires world.listed.Success? && (s.compacting && settings.compacts ==> world.droppedAtStart.Success?)
  {
    var tools := Filter(world.listed.value, MayCall(settings.allowed));
    var prompted := s.(available := tools, log := s.log + PromptOf(settings, world));
    var roomy := if s.compacting && settings.compacts
                 then WithRoom(settings, prompted, world.droppedAtStart.value, world.compactionAtStart) else prompted;
    roomy.(input := [], log := roomy.log + [Message(User, s.input)], prepared := true)
  }

  lemma {:induction false} AllowedIsFiltered(settings: Settings, names: seq<string>)
    ensures Allowed(settings, names) == Filter(names, MayCall(settings.allowed))
  {
    if names != [] {
      AllowedIsFiltered(settings, names[1..]);
    }
  }

  /** Nothing stands in the way of preparing. */
  predicate MayPrepare(settings: Settings, s: State, world: World) {
    && world.listed.Success?
    && (settings.systemPrompt.Some? ==> world.unwritten.Success?)
    && (s.compacting && settings.compacts ==>
          && world.droppedAtStart.Success?
          && !RoomStops(settings, s, world.droppedAtStart.value, world.compactionAtStart))
  }

  /** The first action prepares the run, and then goes on as from the prepared one. */
  lemma TheFirstActionPrepares(settings: Settings, s: State, world: World)
    requires !s.prepared && MayAct(settings, world.before) && MayPrepare(settings, s, world)
    ensures Advance(settings, s, world) == Advance(settings, Prepared(settings, s, world), world)
  {
    MayActPasses(settings, world.before);
    PreparingPrepares(settings, s, world);
  }

  lemma PreparingPrepares(settings: Settings, s: State, world: World)
    requires !s.prepared && MayPrepare(settings, s, world)
    ensures EnsurePrepared(settings, s, world) == (Prepared(settings, s, world), None)
  {
    AllowedIsFiltered(settings, world.listed.value);
    var s0 := s.(available := Allowed(settings, world.listed.value));
    var s1 := s0.(log := s0.log + PromptOf(settings, world));
    assert s0.log + [] == s0.log;
    assert PromptStage(settings, s0, world) == (s1, None);
    if s.compacting && settings.compacts {
      RoomIsMade(settings, s1, world.droppedAtStart.value, world.compactionAtStart);
    }
  }

  /** What stands in the way of preparing is what the run fails as. */
  lemma FailingToPrepareFails(settings: Settings, s: State, world: World)
    requires !s.prepared && s.running.None? && s.pending == []
    requires MayAct(settings, world.before) && !MayPrepare(settings, s, world)
    ensures var (s', step) := Advance(settings, s, world);
            && step.Failure? && !s'.prepared
            && s'.turns == s.turns && s'.modelCalls == s.modelCalls && s'.invocations == s.invocations
            && s.log <= s'.log
            && (forall i | |s.log| <= i < |s'.log| ::
                  s'.log[i] in PromptOf(settings, world) || s'.log[i] in world.compactionAtStart.recap)
            && step.error ==
               if world.listed.Failure? then world.listed.error
               else if settings.systemPrompt.Some? && world.unwritten.Failure? then world.unwritten.error
               else if world.droppedAtStart.Failure? then world.droppedAtStart.error
               else world.compactionAtStart.outcome.error
  {
    MayActPasses(settings, world.before);
    PreparingFails(settings, s, world);
    var (s', failed) := EnsurePrepared(settings, s, world);
    NothingToCloseOff(s', failed.value);
  }

  lemma PreparingFails(settings: Settings, s: State, world: World)
    requires !s.prepared && !MayPrepare(settings, s, world)
    ensures var (s', failed) := EnsurePrepared(settings, s, world);
            && failed.Some?
            && s' == s.(available := s'.available, log := s'.log, compactions := s'.compactions)
            && s.log <= s'.log
            && (forall i | |s.log| <= i < |s'.log| ::
                  s'.log[i] in PromptOf(settings, world) || s'.log[i] in world.compactionAtStart.recap)
            && failed.value ==
               if world.listed.Failure? then world.listed.error
               else if settings.systemPrompt.Some? && world.unwritten.Failure? then world.unwritten.error
               else if world.droppedAtStart.Failure? then world.droppedAtStart.error
               else world.compactionAtStart.outcome.error
  {
    if world.listed.Success? && (settings.systemPrompt.Some? ==> world.unwritten.Success?) {
      var s0 := s.(available := Allowed(settings, world.listed.value));
      var s1 := s0.(log := s0.log + PromptOf(settings, world));
      assert s0.log + [] == s0.log;
      assert PromptStage(settings, s0, world) == (s1, None);
      if world.droppedAtStart.Success? {
        RoomIsMade(settings, s1, world.droppedAtStart.value, world.compactionAtStart);
      }
    }
  }
}
