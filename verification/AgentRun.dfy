/** One run of the agent loop as a state machine advanced one action at a time. Everything the run
    asks of its surroundings during one action is answered by a `World`; the session's transcript is
    the log of what was appended to it. */
module AgentRun {
  import opened Wrappers
  import opened JsonValues
  import opened Conversation
  import opened Words

  datatype ErrorKind = Cancelled | Timeout | Permission | NotFound | OtherKind

  datatype Error = Error(kind: ErrorKind, message: string)

  datatype Usage = Usage(inputTokens: nat, outputTokens: nat)

  datatype ToolOutcome = ToolOutcome(output: Json, isError: bool)

  datatype Settings = Settings(
    maxTurns: nat,
    maxToolCalls: nat,
    systemPrompt: Option<string>,
    allowed: Option<seq<string>>,
    compacts: bool,
    metered: bool,
    deadline: Option<nat>)

  /** What a glance at the cancellation token and the clock shows. */
  datatype Moment = Moment(cancelled: bool, now: nat)

  /** A round of compaction: the recap it appended, if any, and what it reported. */
  datatype Compaction = Compaction(recap: seq<Message>, outcome: Result<bool, Error>)

  datatype Completion = Completion(message: Message, cancelled: bool, usage: Option<Usage>)

  /** Every answer the surroundings give during one action. */
  datatype World = World(
    before: Moment,
    listed: Result<seq<string>, Error>,
    unwritten: Result<bool, Error>,
    droppedAtStart: Result<nat, Error>,
    compactionAtStart: Compaction,
    budget: Result<(), Error>,
    dropped: Result<nat, Error>,
    compaction: Compaction,
    droppedAfter: Result<nat, Error>,
    completion: Result<Completion, Error>,
    charged: Result<(), Error>,
    invoked: Result<ToolOutcome, Error>,
    after: Moment)

  /** What the contracts of the surroundings promise: a model speaks as the assistant, and a recap is
      plain text, neither a system message nor a tool's. */
  predicate Lawful(world: World) {
    && (world.completion.Success? ==> world.completion.value.message.role == Assistant)
    && PlainRecap(world.compactionAtStart.recap)
    && PlainRecap(world.compaction.recap)
  }

  predicate PlainRecap(recap: seq<Message>) {
    forall m | m in recap :: m.role in {User, Assistant} && forall p | p in m.content :: p.Text?
  }

  datatype Update =
    | Content(part: ContentPart)
    | CallAnnounced(call: ToolCall)
    | CallFinished(callId: string, outcome: ToolOutcome)
    | Finished(output: seq<ContentPart>, usage: Option<Usage>)

  type Step = Result<seq<Update>, Error>

  /** The run's fields, the session's log, and a tally of what the run asked others to do. */
  datatype State = State(
    input: seq<ContentPart>,
    available: seq<string>,
    prepared: bool,
    pending: seq<ToolCall>,
    running: Option<ToolCall>,
    turns: nat,
    toolCalls: nat,
    compacting: bool,
    usage: Usage,
    usageReported: bool,
    log: seq<Message>,
    modelCalls: nat,
    invocations: seq<ToolCall>,
    compactions: nat)

  function Fresh(input: seq<ContentPart>, log: seq<Message>): State {
    State(input, [], false, [], None, 0, 0, true, Usage(0, 0), false, log, 0, [], 0)
  }

  // ---- The actions ----

  function Guard(settings: Settings, moment: Moment): Option<Error> {
    if moment.cancelled then Some(Error(Cancelled, "the operation was cancelled"))
    else if settings.deadline.Some? && settings.deadline.value <= moment.now then
      Some(Error(Timeout, "the operation ran out of time"))
    else None
  }

  function Allowed(settings: Settings, names: seq<string>): seq<string> {
    if names == [] then []
    else
      var rest := Allowed(settings, names[1..]);
      if settings.allowed.None? || names[0] in settings.allowed.value then [names[0]] + rest else rest
  }

  predicate Compacts(settings: Settings, s: State) {
    s.compacting && settings.compacts
  }

  /** Asks for room when records are being dropped; true when the window should be read again. */
  function MakeRoom(settings: Settings, s: State, dropped: nat, compaction: Compaction): (State, Result<bool, Error>) {
    if dropped == 0 || !Compacts(settings, s) then (s, Success(false))
    else
      var asked := s.(compactions := s.compactions + 1, log := s.log + compaction.recap);
      match compaction.outcome
      case Success(empty) =>
        if empty then (asked.(compacting := false), Success(false)) else (asked, Success(true))
      case Failure(error) =>
        if error.kind in {Cancelled, Timeout} then (asked, Failure(error))
        else (asked.(compacting := false), Success(false))
  }

  function Prompted(settings: Settings, s: State, unwritten: bool): State {
    if settings.systemPrompt.Some? && unwritten then
      s.(log := s.log + [Message(System, [Text(settings.systemPrompt.value)])])
    else s
  }

  function Questioned(s: State): State {
    s.(input := [], log := s.log + [Message(User, s.input)])
  }

  function PromptStage(settings: Settings, s: State, world: World): (State, Option<Error>) {
    if settings.systemPrompt.None? then (s, None)
    else
      match world.unwritten
      case Failure(error) => (s, Some(error))
      case Success(unwritten) => (Prompted(settings, s, unwritten), None)
  }

  /** Compaction before the input is recorded, so that a recap lands behind it. */
  function RoomStage(settings: Settings, s: State, world: World): (State, Option<Error>) {
    if !Compacts(settings, s) then (s, None)
    else
      match world.droppedAtStart
      case Failure(error) => (s, Some(error))
      case Success(dropped) =>
        var (s', room) := MakeRoom(settings, s, dropped, world.compactionAtStart);
        (s', if room.Failure? then Some(room.error) else None)
  }

  function Prepare(settings: Settings, s: State, world: World): (State, Option<Error>) {
    match world.listed
    case Failure(error) => (s, Some(error))
    case Success(names) =>
      var (s1, unprompted) := PromptStage(settings, s.(available := Allowed(settings, names)), world);
      if unprompted.Some? then (s1, unprompted)
      else
        var (s2, cramped) := RoomStage(settings, s1, world);
        if cramped.Some? then (s2, cramped) else (Questioned(s2), None)
  }

  function Spent(s: State, usage: Option<Usage>): State {
    match usage
    case None => s
    case Some(u) =>
      s.(usage := Usage(SaturatingAdd(s.usage.inputTokens, u.inputTokens),
                        SaturatingAdd(s.usage.outputTokens, u.outputTokens)),
         usageReported := true)
  }

  /** What is not a call, in order: what the caller is shown of a turn. */
  function Shown(parts: seq<ContentPart>): seq<ContentPart> {
    if parts == [] then []
    else (if parts[0].Call? then [] else [parts[0]]) + Shown(parts[1..])
  }

  function AsUpdates(parts: seq<ContentPart>): (updates: seq<Update>)
    ensures |updates| == |parts| && forall i :: 0 <= i < |parts| ==> updates[i] == Content(parts[i])
  {
    seq(|parts|, i requires 0 <= i < |parts| => Content(parts[i]))
  }

  /** Records a completed turn and takes its calls on. */
  function Replied(s: State, reply: Completion): (State, seq<Update>) {
    var content := reply.message.content;
    var s' := s.(log := s.log + [reply.message], pending := s.pending + CallsIn(content));
    var end := if s'.pending == []
               then [Finished(Shown(content), if s.usageReported then Some(s.usage) else None)] else [];
    (s', AsUpdates(Shown(content)) + end)
  }

  function Turn(settings: Settings, s: State, world: World): (State, Step) {
    if s.turns >= settings.maxTurns then (s, Failure(Error(OtherKind, "the run reached its limit of model turns")))
    else if settings.metered && world.budget.Failure? then (s, Failure(world.budget.error))
    else
      match world.dropped
      case Failure(error) => (s, Failure(error))
      case Success(dropped) =>
        var (s1, room) := MakeRoom(settings, s, dropped, world.compaction);
        if room.Failure? then (s1, Failure(room.error))
        else if room.value && world.droppedAfter.Failure? then (s1, Failure(world.droppedAfter.error))
        else Completed(settings, s1, world)
  }

  /** The half of a turn from the model call on. The charge comes before the reply is recorded. */
  function Completed(settings: Settings, s: State, world: World): (State, Step) {
    var called := s.(modelCalls := s.modelCalls + 1);
    match world.completion
    case Failure(error) => (called, Failure(error))
    case Success(reply) =>
      var taken := Spent(called.(turns := called.turns + 1), reply.usage);
      if settings.metered && world.charged.Failure? then (taken, Failure(world.charged.error))
      else if reply.cancelled then (taken, Failure(Error(Cancelled, "the operation was cancelled")))
      else
        var (s', updates) := Replied(taken, reply);
        (s', Success(updates))
  }

  function Announce(settings: Settings, s: State): (State, Step)
    requires s.pending != []
  {
    if s.toolCalls >= settings.maxToolCalls then
      (s, Failure(Error(OtherKind, "the run reached its limit of tool calls")))
    else
      var call := s.pending[0];
      (s.(pending := s.pending[1..], toolCalls := s.toolCalls + 1, running := Some(call)),
       Success([CallAnnounced(call)]))
  }

  function Classify(kind: ErrorKind): string {
    match kind
    case Cancelled => "cancelled"
    case Timeout => "timeout"
    case Permission => "permission"
    case NotFound => "notfound"
    case OtherKind => "other"
  }

  function Report(kind: ErrorKind, message: string): Json {
    Object(map["kind" := Str(Classify(kind)), "message" := Str(message)])
  }

  function ToolMessage(callId: string, outcome: ToolOutcome): Message {
    Message(Tool, [Outcome(callId, outcome.output, outcome.isError)])
  }

  function CallTool(settings: Settings, s: State, world: World): (State, Step)
    requires s.running.Some?
  {
    var call := s.running.value;
    var idle := s.(running := None);
    if call.name !in s.available then
      var outcome := ToolOutcome(Report(NotFound, "no tool of that name is available to this agent"), true);
      (idle.(log := s.log + [ToolMessage(call.callId, outcome)]), Success([CallFinished(call.callId, outcome)]))
    else
      var invoked := idle.(invocations := s.invocations + [call]);
      var outcome := match world.invoked
                     case Success(outcome) => outcome
                     case Failure(error) => ToolOutcome(Report(error.kind, error.message), true);
      var recorded := invoked.(log := s.log + [ToolMessage(call.callId, outcome)]);
      var stop := if world.invoked.Failure? then Guard(settings, world.after) else None;
      if stop.Some? then (recorded, Failure(stop.value))
      else (recorded, Success([CallFinished(call.callId, outcome)]))
  }

  function EnsurePrepared(settings: Settings, s: State, world: World): (State, Option<Error>) {
    if s.prepared then (s, None)
    else
      var (s', failed) := Prepare(settings, s, world);
      if failed.Some? then (s', failed) else (s'.(prepared := true), None)
  }

  function Act(settings: Settings, s: State, world: World): (State, Step) {
    if s.running.Some? then CallTool(settings, s, world)
    else if s.pending != [] then Announce(settings, s)
    else Turn(settings, s, world)
  }

  function TakeStep(settings: Settings, s: State, world: World): (State, Step) {
    var stopped := Guard(settings, world.before);
    if stopped.Some? then (s, Failure(stopped.value))
    else
      var (s', failed) := EnsurePrepared(settings, s, world);
      if failed.Some? then (s', Failure(failed.value)) else Act(settings, s', world)
  }

  function Outstanding(s: State): seq<ToolCall> {
    (if s.running.Some? then [s.running.value] else []) + s.pending
  }

  function Abandoned(call: ToolCall, reason: Error): Message {
    ToolMessage(call.callId,
                ToolOutcome(Report(reason.kind, "the run stopped before this call was made: " + reason.message), true))
  }

  function AbandonedAll(calls: seq<ToolCall>, reason: Error): seq<Message> {
    if calls == [] then [] else [Abandoned(calls[0], reason)] + AbandonedAll(calls[1..], reason)
  }

  function Abandon(s: State, reason: Error): State {
    s.(running := None, pending := [], log := s.log + AbandonedAll(Outstanding(s), reason))
  }

  function Advance(settings: Settings, s: State, world: World): (State, Step) {
    var (s', step) := TakeStep(settings, s, world);
    match step
    case Success(_) => (s', step)
    case Failure(error) => (Abandon(s', error), step)
  }

  predicate IsFinal(step: Step) {
    step.Failure? || exists u :: u in step.value && u.Finished?
  }

  // ---- What every action keeps ----

  /** The transcript is in order, and what it leaves unanswered is the announced call and then the
      pending ones. */
  ghost predicate InOrder(s: State) {
    Unanswered(s.log) == Some(CallIds(Outstanding(s)))
  }

  lemma {:induction false} PlainMessagesFollow(log: seq<Message>, more: seq<Message>)
    requires Unanswered(log) == Some([])
    requires forall m | m in more :: m.role != Tool && Asked(m) == []
    ensures Unanswered(log + more) == Some([])
    decreases |more|
  {
    if more == [] {
      assert log + more == log;
    } else {
      UnansweredExtends(log, more[0], []);
      PlainMessagesFollow(log + [more[0]], more[1..]);
      assert log + more == (log + [more[0]]) + more[1..];
    }
  }

  lemma {:induction false} PlainPartsAskNothing(parts: seq<ContentPart>)
    requires forall p | p in parts :: !p.Call?
    ensures CallsIn(parts) == []
  {
    if parts != [] {
      assert forall p | p in parts[1..] :: p in parts;
      PlainPartsAskNothing(parts[1..]);
    }
  }

  lemma RecapFollows(log: seq<Message>, recap: seq<Message>)
    requires Unanswered(log) == Some([]) && PlainRecap(recap)
    ensures Unanswered(log + recap) == Some([])
  {
    forall m | m in recap ensures m.role != Tool && Asked(m) == [] {
      PlainPartsAskNothing(m.content);
    }
    PlainMessagesFollow(log, recap);
  }

  lemma MakeRoomKeepsOrder(settings: Settings, s: State, dropped: nat, compaction: Compaction)
    requires InOrder(s) && Outstanding(s) == [] && PlainRecap(compaction.recap)
    ensures var s' := MakeRoom(settings, s, dropped, compaction).0;
            && InOrder(s') && Outstanding(s') == []
            && s'.prepared == s.prepared
  {
    RecapFollows(s.log, compaction.recap);
  }

  /** The session is in order and nothing is outstanding. */
  ghost predicate Settled(s: State) {
    Unanswered(s.log) == Some([]) && Outstanding(s) == []
  }

  lemma PromptStageSettles(settings: Settings, s: State, world: World)
    requires Settled(s)
    ensures Settled(PromptStage(settings, s, world).0)
  {
    if settings.systemPrompt.Some? {
      UnansweredExtends(s.log, Message(System, [Text(settings.systemPrompt.value)]), []);
    }
  }

  lemma RoomStageSettles(settings: Settings, s: State, world: World)
    requires Settled(s) && PlainRecap(world.compactionAtStart.recap)
    ensures Settled(RoomStage(settings, s, world).0)
  {
    if world.droppedAtStart.Success? {
      MakeRoomKeepsOrder(settings, s, world.droppedAtStart.value, world.compactionAtStart);
    }
  }

  lemma QuestionedSettles(s: State)
    requires Settled(s)
    ensures Settled(Questioned(s))
  {
    UnansweredExtends(s.log, Message(User, s.input), []);
  }

  lemma PrepareSettles(settings: Settings, s: State, world: World)
    requires Settled(s) && Lawful(world)
    ensures Settled(Prepare(settings, s, world).0)
  {
    if world.listed.Success? {
      var s0 := s.(available := Allowed(settings, world.listed.value));
      assert Settled(s0);
      PromptStageSettles(settings, s0, world);
      var s1 := PromptStage(settings, s0, world).0;
      RoomStageSettles(settings, s1, world);
      QuestionedSettles(RoomStage(settings, s1, world).0);
    }
  }

  lemma RepliedKeepsOrder(s: State, reply: Completion)
    requires InOrder(s) && Outstanding(s) == [] && reply.message.role == Assistant
    ensures InOrder(Replied(s, reply).0)
  {
    UnansweredExtends(s.log, reply.message, []);
    assert [] + CallsIn(reply.message.content) == CallsIn(reply.message.content);
  }

  /** The half of a turn that only counts leaves what was said and asked alone. */
  lemma CompletedIs(settings: Settings, s: State, world: World) returns (taken: State)
    ensures taken.log == s.log && taken.running == s.running && taken.pending == s.pending
    ensures var s' := Completed(settings, s, world).0;
            s' == taken || (world.completion.Success? && s' == Replied(taken, world.completion.value).0)
  {
    taken := s.(modelCalls := s.modelCalls + 1);
    if world.completion.Success? {
      var counted := taken.(turns := taken.turns + 1);
      taken := Spent(counted, world.completion.value.usage);
      assert taken == counted.(usage := taken.usage, usageReported := taken.usageReported);
    }
  }

  lemma SameOrder(s: State, s': State)
    requires InOrder(s) && s'.log == s.log && s'.running == s.running && s'.pending == s.pending
    ensures InOrder(s') && Outstanding(s') == Outstanding(s)
  {
  }

  lemma CompletedKeepsOrder(settings: Settings, s: State, world: World)
    requires InOrder(s) && Outstanding(s) == [] && Lawful(world)
    ensures InOrder(Completed(settings, s, world).0)
  {
    var taken := CompletedIs(settings, s, world);
    SameOrder(s, taken);
    if world.completion.Success? {
      RepliedKeepsOrder(taken, world.completion.value);
    }
  }

  lemma TurnKeepsOrder(settings: Settings, s: State, world: World)
    requires InOrder(s) && Outstanding(s) == [] && Lawful(world)
    ensures InOrder(Turn(settings, s, world).0)
  {
    if world.dropped.Success? {
      MakeRoomKeepsOrder(settings, s, world.dropped.value, world.compaction);
      CompletedKeepsOrder(settings, MakeRoom(settings, s, world.dropped.value, world.compaction).0, world);
    }
  }

  lemma CalledToolRecords(settings: Settings, s: State, world: World) returns (outcome: ToolOutcome)
    requires s.running.Some?
    ensures var s' := CallTool(settings, s, world).0;
            && s'.log == s.log + [ToolMessage(s.running.value.callId, outcome)]
            && s'.running.None? && s'.pending == s.pending
  {
    if s.running.value.name !in s.available {
      outcome := ToolOutcome(Report(NotFound, "no tool of that name is available to this agent"), true);
    } else {
      outcome := match world.invoked
                 case Success(outcome) => outcome
                 case Failure(error) => ToolOutcome(Report(error.kind, error.message), true);
    }
  }

  lemma AnsweredKeepsOrder(s: State, s': State, outcome: ToolOutcome)
    requires InOrder(s) && s.running.Some?
    requires s'.log == s.log + [ToolMessage(s.running.value.callId, outcome)]
    requires s'.running.None? && s'.pending == s.pending
    ensures InOrder(s')
  {
    UnansweredExtends(s.log, ToolMessage(s.running.value.callId, outcome), CallIds(Outstanding(s)));
    assert Outstanding(s)[1..] == Outstanding(s');
    assert CallIds(Outstanding(s))[1..] == CallIds(Outstanding(s'));
  }

  lemma CallToolKeepsOrder(settings: Settings, s: State, world: World)
    requires InOrder(s) && s.running.Some?
    ensures InOrder(CallTool(settings, s, world).0)
  {
    var outcome := CalledToolRecords(settings, s, world);
    AnsweredKeepsOrder(s, CallTool(settings, s, world).0, outcome);
  }

  lemma AnnounceKeepsOrder(settings: Settings, s: State)
    requires InOrder(s) && s.pending != [] && s.running.None?
    ensures InOrder(Announce(settings, s).0)
  {
    assert Outstanding(Announce(settings, s).0) == Outstanding(s);
  }

  /** A run that has not prepared yet has nothing outstanding. */
  ghost predicate Ready(s: State) {
    InOrder(s) && (!s.prepared ==> Outstanding(s) == [])
  }

  lemma EnsurePreparedKeepsOrder(settings: Settings, s: State, world: World)
    requires Ready(s) && Lawful(world)
    ensures InOrder(EnsurePrepared(settings, s, world).0)
    ensures EnsurePrepared(settings, s, world).1.None? ==> EnsurePrepared(settings, s, world).0.prepared
  {
    if !s.prepared {
      PrepareSettles(settings, s, world);
    }
  }

  lemma ActKeepsOrder(settings: Settings, s: State, world: World)
    requires InOrder(s) && s.prepared && Lawful(world)
    ensures InOrder(Act(settings, s, world).0) && Act(settings, s, world).0.prepared
  {
    if s.running.Some? {
      CallToolKeepsOrder(settings, s, world);
    } else if s.pending != [] {
      AnnounceKeepsOrder(settings, s);
    } else {
      TurnKeepsOrder(settings, s, world);
      TurnStaysPrepared(settings, s, world);
    }
  }

  lemma StepKeepsOrder(settings: Settings, s: State, world: World)
    requires Ready(s) && Lawful(world)
    ensures InOrder(TakeStep(settings, s, world).0)
    ensures TakeStep(settings, s, world).1.Success? ==> TakeStep(settings, s, world).0.prepared
  {
    EnsurePreparedKeepsOrder(settings, s, world);
    var (s', failed) := EnsurePrepared(settings, s, world);
    if failed.None? {
      ActKeepsOrder(settings, s', world);
    }
  }

  lemma CompletedStaysPrepared(settings: Settings, s: State, world: World)
    ensures Completed(settings, s, world).0.prepared == s.prepared
  {
  }

  lemma TurnStaysPrepared(settings: Settings, s: State, world: World)
    ensures Turn(settings, s, world).0.prepared == s.prepared
  {
    if world.dropped.Success? {
      CompletedStaysPrepared(settings, MakeRoom(settings, s, world.dropped.value, world.compaction).0, world);
    }
  }

  lemma {:induction false} AbandonAnswersAll(log: seq<Message>, calls: seq<ToolCall>, reason: Error)
    requires Unanswered(log) == Some(CallIds(calls))
    ensures Unanswered(log + AbandonedAll(calls, reason)) == Some([])
    decreases |calls|
  {
    if calls == [] {
      assert log + [] == log;
    } else {
      UnansweredExtends(log, Abandoned(calls[0], reason), CallIds(calls));
      assert CallIds(calls)[1..] == CallIds(calls[1..]);
      AbandonAnswersAll(log + [Abandoned(calls[0], reason)], calls[1..], reason);
      assert log + AbandonedAll(calls, reason)
          == (log + [Abandoned(calls[0], reason)]) + AbandonedAll(calls[1..], reason);
    }
  }

  /** Every action keeps the transcript in order, and one that ends the run, however it ends it,
      leaves nothing unanswered. */
  lemma AdvanceKeepsOrder(settings: Settings, s: State, world: World)
    requires Ready(s) && Lawful(world)
    ensures var (s', step) := Advance(settings, s, world);
            && Ready(s')
            && (step.Failure? ==> Outstanding(s') == [] && Unanswered(s'.log) == Some([]))
            && (IsFinal(step) ==> Unanswered(s'.log) == Some([]))
  {
    StepKeepsOrder(settings, s, world);
    var (s', step) := TakeStep(settings, s, world);
    match step
    case Failure(error) =>
      AbandonAnswersAll(s'.log, Outstanding(s'), error);
    case Success(updates) =>
      FinishedMeansDone(settings, s, world);
  }

  /** Nothing but its last update says a run has finished, and one that has owes nothing. */
  ghost predicate FinishesCleanly(s: State, step: Step) {
    step.Success? ==>
      && (forall i | 0 <= i < |step.value| && step.value[i].Finished? :: i == |step.value| - 1)
      && ((exists i :: 0 <= i < |step.value| && step.value[i].Finished?) ==> Outstanding(s) == [])
  }

  lemma CompletedFinishesCleanly(settings: Settings, s: State, world: World)
    requires s.running.None?
    ensures FinishesCleanly(Completed(settings, s, world).0, Completed(settings, s, world).1)
  {
    if world.completion.Success? {
      var reply := world.completion.value;
      var shown := AsUpdates(Shown(reply.message.content));
      assert forall i | 0 <= i < |shown| :: !shown[i].Finished?;
    }
  }

  lemma TurnFinishesCleanly(settings: Settings, s: State, world: World)
    requires s.running.None?
    ensures FinishesCleanly(Turn(settings, s, world).0, Turn(settings, s, world).1)
  {
    if world.dropped.Success? {
      var s1 := MakeRoom(settings, s, world.dropped.value, world.compaction).0;
      assert s1.running.None?;
      CompletedFinishesCleanly(settings, s1, world);
    }
  }

  lemma ActFinishesCleanly(settings: Settings, s: State, world: World)
    ensures FinishesCleanly(Act(settings, s, world).0, Act(settings, s, world).1)
  {
    if s.running.None? && s.pending == [] {
      TurnFinishesCleanly(settings, s, world);
    }
  }

  lemma FinishedMeansDone(settings: Settings, s: State, world: World)
    ensures FinishesCleanly(TakeStep(settings, s, world).0, TakeStep(settings, s, world).1)
  {
    ActFinishesCleanly(settings, EnsurePrepared(settings, s, world).0, world);
  }
}
