/** What holds over a whole run of the compactions it asks for, the tools it may call and the turns it
    records, the first action included. */
module AgentRounds {
  import opened Wrappers
  import opened Conversation
  import opened AgentRun
  import opened AgentDrivers

  // ---- Rounds of compaction ----

  /** A round worth asking for another after: it made room. */
  predicate Fruitful(round: Compaction) {
    round.outcome == Success(false)
  }

  /** The round asked for if records are dropped and asking is still worth it. */
  function RoomAsked(settings: Settings, s: State, dropped: Result<nat, Error>, round: Compaction): seq<Compaction> {
    if Compacts(settings, s) && dropped.Success? && dropped.value > 0 then [round] else []
  }

  function PreparingAsks(settings: Settings, s: State, world: World): seq<Compaction> {
    if s.prepared || world.listed.Failure? || (settings.systemPrompt.Some? && world.unwritten.Failure?) then []
    else RoomAsked(settings, s, world.droppedAtStart, world.compactionAtStart)
  }

  function TurnAsks(settings: Settings, s: State, world: World): seq<Compaction> {
    if s.running.Some? || s.pending != [] || s.turns >= settings.maxTurns
       || (settings.metered && world.budget.Failure?) then []
    else RoomAsked(settings, s, world.dropped, world.compaction)
  }

  /** The rounds one action asks for, in order. */
  function Rounds(settings: Settings, s: State, world: World): seq<Compaction> {
    if Guard(settings, world.before).Some? then []
    else
      var (s1, failed) := EnsurePrepared(settings, s, world);
      PreparingAsks(settings, s, world) + (if failed.Some? then [] else TurnAsks(settings, s1, world))
  }

  /** The rounds a driven run asks for, in order. */
  function AllRounds(settings: Settings, s: State, worlds: seq<World>): seq<Compaction>
    decreases |worlds|
  {
    if worlds == [] then []
    else
      var (s', step) := Advance(settings, s, worlds[0]);
      Rounds(settings, s, worlds[0])
      + (if step.Failure? || HasFinished(step.value) then [] else AllRounds(settings, s', worlds[1..]))
  }

  /** Every round but the last made room. */
  predicate OnlyLastFruitless(rounds: seq<Compaction>) {
    forall i | 0 <= i < |rounds| - 1 :: Fruitful(rounds[i])
  }

  /** What a stretch of a run asks for: nothing once asking has stopped, and asking stops, or the run
      does, at the first round that did not make room. */
  ghost predicate Asks(s: State, s': State, ended: bool, rounds: seq<Compaction>) {
    && s'.compactions == s.compactions + |rounds|
    && (!s.compacting ==> rounds == [] && !s'.compacting)
    && OnlyLastFruitless(rounds)
    && (rounds != [] && !Fruitful(rounds[|rounds| - 1]) ==> ended || !s'.compacting)
  }

  lemma MakeRoomAsks(settings: Settings, s: State, dropped: nat, round: Compaction)
    ensures var (s', room) := MakeRoom(settings, s, dropped, round);
            Asks(s, s', room.Failure?, RoomAsked(settings, s, Success(dropped), round))
  {
  }

  lemma AsksJoin(a: State, b: State, c: State, ended: bool, first: seq<Compaction>, second: seq<Compaction>)
    requires Asks(a, b, false, first) && Asks(b, c, ended, second)
    ensures Asks(a, c, ended, first + second)
  {
    var rounds := first + second;
    forall i | 0 <= i < |rounds| - 1 ensures Fruitful(rounds[i]) {
      if i >= |first| {
        assert rounds[i] == second[i - |first|];
      }
    }
    assert second != [] ==> rounds[|rounds| - 1] == second[|second| - 1];
    assert second == [] ==> rounds == first;
  }

  lemma RoomStageAsks(settings: Settings, s: State, world: World)
    ensures var (s', failed) := RoomStage(settings, s, world);
            Asks(s, s', failed.Some?, RoomAsked(settings, s, world.droppedAtStart, world.compactionAtStart))
  {
    if Compacts(settings, s) && world.droppedAtStart.Success? {
      MakeRoomAsks(settings, s, world.droppedAtStart.value, world.compactionAtStart);
    }
  }

  lemma PreparingIsAsking(settings: Settings, s: State, world: World)
    ensures var (s', failed) := EnsurePrepared(settings, s, world);
            Asks(s, s', failed.Some?, PreparingAsks(settings, s, world))
  {
    if !s.prepared && world.listed.Success? {
      var s1 := PromptStage(settings, s.(available := Allowed(settings, world.listed.value)), world).0;
      RoomStageAsks(settings, s1, world);
    }
  }

  lemma TurnIsAsking(settings: Settings, s: State, world: World)
    requires s.running.None? && s.pending == []
    ensures var (s', step) := Turn(settings, s, world);
            Asks(s, s', step.Failure?, TurnAsks(settings, s, world))
  {
    if world.dropped.Success? {
      MakeRoomAsks(settings, s, world.dropped.value, world.compaction);
      var room := MakeRoom(settings, s, world.dropped.value, world.compaction).0;
      CompletedSpends(settings, room, world);
      CompletedCompactsNothing(settings, room, world);
    }
  }

  lemma ActIsAsking(settings: Settings, s: State, world: World)
    ensures var (s', step) := Act(settings, s, world);
            Asks(s, s', step.Failure?, TurnAsks(settings, s, world))
  {
    if s.running.None? && s.pending == [] {
      TurnIsAsking(settings, s, world);
    } else {
      ActsWithoutTurn(settings, s, world);
    }
  }

  lemma ActsWithoutTurn(settings: Settings, s: State, world: World)
    requires s.running.Some? || s.pending != []
    ensures var s' := Act(settings, s, world).0;
            s'.compactions == s.compactions && s'.compacting == s.compacting
  {
  }

  lemma AbandonAsksNothing(s: State, s': State, rounds: seq<Compaction>, reason: Error)
    requires Asks(s, s', true, rounds)
    ensures Asks(s, Abandon(s', reason), true, rounds)
  {
  }

  lemma AdvanceIsAsking(settings: Settings, s: State, world: World)
    ensures var (s', step) := Advance(settings, s, world);
            Asks(s, s', step.Failure?, Rounds(settings, s, world))
  {
    var (s', step) := TakeStep(settings, s, world);
    if Guard(settings, world.before).None? {
      PreparingIsAsking(settings, s, world);
      var (s1, failed) := EnsurePrepared(settings, s, world);
      if failed.None? {
        ActIsAsking(settings, s1, world);
        AsksJoin(s, s1, s', step.Failure?, PreparingAsks(settings, s, world), TurnAsks(settings, s1, world));
      } else {
        assert PreparingAsks(settings, s, world) + [] == PreparingAsks(settings, s, world);
      }
    }
    if step.Failure? {
      AbandonAsksNothing(s, s', Rounds(settings, s, world), step.error);
    }
  }

  lemma {:induction false} DriveIsAsking(settings: Settings, s: State, worlds: seq<World>)
    ensures Asks(s, Drive(settings, s, worlds).state, true, AllRounds(settings, s, worlds))
    decreases |worlds|
  {
    if worlds != [] {
      AdvanceIsAsking(settings, s, worlds[0]);
      var (s', step) := Advance(settings, s, worlds[0]);
      var first := Rounds(settings, s, worlds[0]);
      if step.Success? && !HasFinished(step.value) {
        DriveIsAsking(settings, s', worlds[1..]);
        AsksJoin(s, s', Drive(settings, s', worlds[1..]).state, true, first, AllRounds(settings, s', worlds[1..]));
      } else {
        assert first + [] == first;
      }
    }
  }

  /** Over a whole run, preparation and first turn included, no compaction is asked for after one that
      came back empty or failed. */
  lemma NoRoundFollowsAFruitlessOne(settings: Settings, input: seq<ContentPart>, log: seq<Message>, worlds: seq<World>)
    ensures var rounds := AllRounds(settings, Fresh(input, log), worlds);
            && Drive(settings, Fresh(input, log), worlds).state.compactions == |rounds|
            && OnlyLastFruitless(rounds)
  {
    DriveIsAsking(settings, Fresh(input, log), worlds);
  }

  // ---- The tools of a run ----

  lemma {:induction false} DriveKeepsTools(settings: Settings, s: State, worlds: seq<World>)
    requires s.prepared
    ensures var s' := Drive(settings, s, worlds).state;
            s'.prepared && s'.available == s.available
    decreases |worlds|
  {
    if worlds != [] {
      AdvanceFixesTools(settings, s, worlds[0]);
      AdvanceStaysPrepared(settings, s, worlds[0]);
      var (s', step) := Advance(settings, s, worlds[0]);
      if step.Success? && !HasFinished(step.value) {
        DriveKeepsTools(settings, s', worlds[1..]);
      }
    }
  }

  lemma AdvanceStaysPrepared(settings: Settings, s: State, world: World)
    requires s.prepared
    ensures Advance(settings, s, world).0.prepared
  {
    ActStaysPrepared(settings, s, world);
  }

  lemma ActStaysPrepared(settings: Settings, s: State, world: World)
    ensures Act(settings, s, world).0.prepared == s.prepared
  {
    if s.running.None? && s.pending == [] {
      TurnStaysPrepared(settings, s, world);
    }
  }

  lemma PreparingFixesTools(settings: Settings, s: State, world: World)
    requires !s.prepared
    ensures var (s', failed) := EnsurePrepared(settings, s, world);
            && (s'.prepared <==> failed.None?)
            && (s'.prepared ==> world.listed.Success? && s'.available == Allowed(settings, world.listed.value))
  {
    if world.listed.Success? {
      var s0 := s.(available := Allowed(settings, world.listed.value));
      var s1 := PromptStage(settings, s0, world).0;
      assert s1.available == s0.available && s1.prepared == s.prepared;
      RoomStageKeepsTools(settings, s1, world);
    }
  }

  lemma RoomStageKeepsTools(settings: Settings, s: State, world: World)
    ensures var s' := RoomStage(settings, s, world).0;
            s'.available == s.available && s'.prepared == s.prepared
  {
    if world.droppedAtStart.Success? {
      MakeRoomSpends(settings, s, world.droppedAtStart.value, world.compactionAtStart);
    }
  }

  lemma FirstActionFixesTools(settings: Settings, s: State, world: World)
    requires !s.prepared
    ensures var (s', step) := Advance(settings, s, world);
            && (s'.prepared ==> world.listed.Success? && s'.available == Allowed(settings, world.listed.value))
            && (step.Success? ==> s'.prepared)
  {
    PreparingFixesTools(settings, s, world);
    var s1 := EnsurePrepared(settings, s, world).0;
    ActFixesTools(settings, s1, world);
    ActStaysPrepared(settings, s1, world);
  }

  // ---- How many rounds ----

  /** Settings and surroundings in which a run has nothing to do but make room and ask its model. */
  const PLAIN: Settings := Settings(1, 0, None, None, true, true, None)

  function Surroundings(dropped: nat, completion: Result<Completion, Error>, charged: Result<(), Error>): World {
    var quiet := Moment(false, 0);
    var round := Compaction([], Success(false));
    World(quiet, Success([]), Success(true), Success(dropped), round, Success(()), Success(dropped), round, Success(0),
          completion, charged, Failure(Error(OtherKind, "")), quiet)
  }

  /** A run whose first turn fails at the model has asked for a round before it and a round in it, and
      taken no turn: two rounds more than turns. */
  lemma AFailedTurnMayCompactTwice(input: seq<ContentPart>, log: seq<Message>, error: Error)
    ensures var driven := Drive(PLAIN, Fresh(input, log), [Surroundings(1, Failure(error), Success(()))]);
            driven.ending == Failed(error) && driven.state.turns == 0 && driven.state.compactions == 2
  {
    var s, world := Fresh(input, log), Surroundings(1, Failure(error), Success(()));
    var prepared := s.(compactions := 1, input := [], log := log + [] + [Message(User, input)], prepared := true);
    assert EnsurePrepared(PLAIN, s, world) == (prepared, None);
    var room := prepared.(compactions := 2, log := prepared.log + []);
    assert MakeRoom(PLAIN, prepared, 1, world.compaction) == (room, Success(true));
    assert Turn(PLAIN, prepared, world) == Completed(PLAIN, room, world);
    assert Completed(PLAIN, room, world) == (room.(modelCalls := 1), Failure(error));
    assert TakeStep(PLAIN, s, world) == (room.(modelCalls := 1), Failure(error));
  }

  // ---- The turns of a run ----

  /** The run as its model is asked: prepared, and with the room made that its turn makes. */
  function AsAsked(settings: Settings, s: State, world: World): State {
    var prepared := EnsurePrepared(settings, s, world).0;
    if world.dropped.Success? then MakeRoom(settings, prepared, world.dropped.value, world.compaction).0 else prepared
  }

  lemma TurnTaken(settings: Settings, s: State, world: World)
    requires Turn(settings, s, world).0.turns > s.turns
    ensures world.dropped.Success? && world.completion.Success?
    ensures Turn(settings, s, world)
         == Completed(settings, MakeRoom(settings, s, world.dropped.value, world.compaction).0, world)
  {
    if world.dropped.Success? {
      MakeRoomSpends(settings, s, world.dropped.value, world.compaction);
      CompletedSpends(settings, MakeRoom(settings, s, world.dropped.value, world.compaction).0, world);
    }
  }

  /** What a reply is kept for: its charge recorded, if there is one to record, and not cut short. */
  predicate Kept(settings: Settings, world: World) {
    && world.completion.Success? && !world.completion.value.cancelled
    && !(settings.metered && world.charged.Failure?)
  }

  lemma CompletedKeeps(settings: Settings, s: State, world: World)
    requires world.completion.Success?
    ensures var (s', step) := Completed(settings, s, world);
            && (step.Success? <==> Kept(settings, world))
            && s'.log == s.log + (if Kept(settings, world) then [world.completion.value.message] else [])
            && s'.running == s.running
            && (step.Failure? ==> s'.pending == s.pending)
  {
    assert s.log + [] == s.log;
  }

  lemma ActTakesTurn(settings: Settings, s: State, world: World)
    requires Act(settings, s, world).0.turns > s.turns
    ensures s.running.None? && s.pending == [] && Act(settings, s, world) == Turn(settings, s, world)
  {
  }

  lemma PreparingTakesNoTurn(settings: Settings, s: State, world: World)
    ensures EnsurePrepared(settings, s, world).0.turns == s.turns
  {
  }

  lemma AbandonNothing(s: State, reason: Error)
    requires s.running.None? && s.pending == []
    ensures Abandon(s, reason).log == s.log
  {
    assert s.log + [] == s.log;
  }

  /** A turn an action has taken is in the transcript, after all that preceded asking for it, exactly when
      its charge could be recorded and its reply was not cut short; otherwise the action leaves the
      transcript as it stood when the model was asked. */
  lemma TakenTurnIsRecordedExactlyWhen(settings: Settings, s: State, world: World)
    requires Advance(settings, s, world).0.turns > s.turns
    ensures var (s', step) := Advance(settings, s, world);
            && world.completion.Success?
            && (step.Success? <==> Kept(settings, world))
            && s'.log == AsAsked(settings, s, world).log
                         + (if Kept(settings, world) then [world.completion.value.message] else [])
  {
    var prepared := EnsurePrepared(settings, s, world).0;
    PreparingTakesNoTurn(settings, s, world);
    ActTakesTurn(settings, prepared, world);
    TurnTaken(settings, prepared, world);
    var asked := AsAsked(settings, s, world);
    MakeRoomSpends(settings, prepared, world.dropped.value, world.compaction);
    CompletedKeeps(settings, asked, world);
    var (s', step) := Completed(settings, asked, world);
    if step.Failure? {
      AbandonNothing(s', step.error);
    }
  }

  /** A charge that cannot be recorded loses the reply: the model was called and the turn counted, and the
      transcript ends with the question. */
  lemma AnUnchargedTurnIsLost(input: seq<ContentPart>, reply: Completion, error: Error)
    ensures var (s', step) := Advance(PLAIN, Fresh(input, []), Surroundings(0, Success(reply), Failure(error)));
            && step == Failure(error) && s'.turns == 1 && s'.modelCalls == 1
            && s'.log == [Message(User, input)]
  {
    var s, world := Fresh(input, []), Surroundings(0, Success(reply), Failure(error));
    var prepared := s.(input := [], log := [Message(User, input)], prepared := true);
    assert [] + [Message(User, input)] == [Message(User, input)];
    assert EnsurePrepared(PLAIN, s, world) == (prepared, None);
    assert Turn(PLAIN, prepared, world) == Completed(PLAIN, prepared, world);
    var spent := Spent(prepared.(modelCalls := 1, turns := 1), reply.usage);
    assert Completed(PLAIN, prepared, world) == (spent, Failure(error));
    AbandonNothing(spent, error);
  }
}
