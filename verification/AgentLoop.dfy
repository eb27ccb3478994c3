/** The run as the loop keeps it: fields updated action by action, and the two drivers over it. Each
    method is proved to do what the state machine says. */
module AgentLoop {
  import opened Wrappers
  import opened Conversation
  import opened AgentRun
  import opened AgentDrivers
  import opened Words

  class Run {
    const settings: Settings
    var input: seq<ContentPart>
    var available: seq<string>
    var prepared: bool
    var pending: seq<ToolCall>
    var running: Option<ToolCall>
    var turns: nat
    var toolCalls: nat
    var compacting: bool
    var usage: Usage
    var usageReported: bool
    var log: seq<Message>
    ghost var modelCalls: nat
    ghost var invocations: seq<ToolCall>
    ghost var compactions: nat

    ghost function State(): State
      reads this
    {
      AgentRun.State.State(input, available, prepared, pending, running, turns, toolCalls, compacting,
                           usage, usageReported, log, modelCalls, invocations, compactions)
    }

    constructor (settings: Settings, input: seq<ContentPart>, log: seq<Message>)
      ensures State() == Fresh(input, log) && this.settings == settings
    {
      this.settings, this.input, this.log := settings, input, log;
      available, prepared, pending, running := [], false, [], None;
      turns, toolCalls, compacting := 0, 0, true;
      usage, usageReported := Usage(0, 0), false;
      modelCalls, invocations, compactions := 0, [], 0;
    }

    method Append(message: Message)
      modifies this`log
      ensures log == old(log) + [message]
    {
      log := log + [message];
    }

    method Offer(names: seq<string>) returns (kept: seq<string>)
      ensures kept == Allowed(settings, names)
    {
      kept := [];
      for i := |names| downto 0
        invariant kept == Allowed(settings, names[i..])
      {
        if settings.allowed.None? || names[i] in settings.allowed.value {
          kept := [names[i]] + kept;
        }
        assert names[i..][1..] == names[i + 1..];
      }
    }

    method MakeRoom(dropped: nat, compaction: Compaction) returns (r: Result<bool, Error>)
      modifies this`log, this`compacting, this`compactions
      ensures (State(), r) == AgentRun.MakeRoom(settings, old(State()), dropped, compaction)
    {
      if dropped == 0 {
        return Success(false);
      }
      if !(compacting && settings.compacts) {
        return Success(false);
      }
      compactions := compactions + 1;
      log := log + compaction.recap;
      match compaction.outcome {
        case Success(empty) =>
          if empty {
            compacting := false;
            return Success(false);
          }
          return Success(true);
        case Failure(error) =>
          if error.kind == Cancelled || error.kind == Timeout {
            return Failure(error);
          }
          compacting := false;
          return Success(false);
      }
    }

    method Prepare(world: World) returns (failed: Option<Error>)
      modifies this`available, this`log, this`compacting, this`compactions, this`input
      ensures (State(), failed) == AgentRun.Prepare(settings, old(State()), world)
    {
      if world.listed.Failure? {
        return Some(world.listed.error);
      }
      available := Offer(world.listed.value);
      if settings.systemPrompt.Some? {
        if world.unwritten.Failure? {
          return Some(world.unwritten.error);
        }
        if world.unwritten.value {
          Append(Message(System, [Text(settings.systemPrompt.value)]));
        }
      }
      if compacting && settings.compacts {
        if world.droppedAtStart.Failure? {
          return Some(world.droppedAtStart.error);
        }
        var room := MakeRoom(world.droppedAtStart.value, world.compactionAtStart);
        if room.Failure? {
          return Some(room.error);
        }
      }
      var question := input;
      input := [];
      Append(Message(User, question));
      return None;
    }

    /** Queues the calls of a reply and lists the rest of it. */
    method Split(content: seq<ContentPart>) returns (shown: seq<ContentPart>)
      modifies this`pending
      ensures pending == old(pending) + CallsIn(content) && shown == Shown(content)
    {
      shown := [];
      for i := 0 to |content|
        invariant pending == old(pending) + CallsIn(content[..i])
        invariant shown == Shown(content[..i])
      {
        SplitStep(content, i);
        match content[i] {
          case Call(call) => pending := pending + [call];
          case _ => shown := shown + [content[i]];
        }
      }
      assert content[..|content|] == content;
    }

    method Turn(world: World) returns (r: Step)
      modifies this
      ensures (State(), r) == AgentRun.Turn(settings, old(State()), world)
    {
      if turns >= settings.maxTurns {
        return Failure(Error(OtherKind, "the run reached its limit of model turns"));
      }
      if settings.metered && world.budget.Failure? {
        return Failure(world.budget.error);
      }
      if world.dropped.Failure? {
        return Failure(world.dropped.error);
      }
      var room := MakeRoom(world.dropped.value, world.compaction);
      if room.Failure? {
        return Failure(room.error);
      }
      if room.value && world.droppedAfter.Failure? {
        return Failure(world.droppedAfter.error);
      }
      r := Complete(world);
    }

    method Complete(world: World) returns (r: Step)
      modifies this
      ensures (State(), r) == Completed(settings, old(State()), world)
    {
      modelCalls := modelCalls + 1;
      if world.completion.Failure? {
        return Failure(world.completion.error);
      }
      var reply := world.completion.value;
      turns := turns + 1;
      if reply.usage.Some? {
        usage := Usage(SaturatingAdd(usage.inputTokens, reply.usage.value.inputTokens),
                       SaturatingAdd(usage.outputTokens, reply.usage.value.outputTokens));
        usageReported := true;
      }
      if settings.metered && world.charged.Failure? {
        return Failure(world.charged.error);
      }
      if reply.cancelled {
        return Failure(Error(Cancelled, "the operation was cancelled"));
      }
      var updates := Record(reply);
      return Success(updates);
    }

    /** Records the reply before any tool runs, so that a call is always ahead of its answer. */
    method Record(reply: Completion) returns (updates: seq<Update>)
      modifies this`log, this`pending
      ensures (State(), updates) == Replied(old(State()), reply)
    {
      Append(reply.message);
      var shown := Split(reply.message.content);
      updates := AsUpdates(shown);
      if pending == [] {
        updates := updates + [Finished(shown, if usageReported then Some(usage) else None)];
      } else {
        assert updates + [] == updates;
      }
    }

    method Announce() returns (r: Step)
      requires pending != []
      modifies this`pending, this`toolCalls, this`running
      ensures (State(), r) == AgentRun.Announce(settings, old(State()))
    {
      var call := pending[0];
      pending := pending[1..];
      if toolCalls >= settings.maxToolCalls {
        pending := [call] + pending;
        assert pending == old(pending);
        return Failure(Error(OtherKind, "the run reached its limit of tool calls"));
      }
      toolCalls := toolCalls + 1;
      running := Some(call);
      return Success([CallAnnounced(call)]);
    }

    method CallTool(call: ToolCall, world: World) returns (r: Step)
      requires running.None?
      modifies this`log, this`invocations
      ensures (State(), r) == AgentRun.CallTool(settings, old(State()).(running := Some(call)), world)
    {
      var stop: Option<Error> := None;
      var outcome: ToolOutcome;
      if call.name in available {
        invocations := invocations + [call];
        match world.invoked {
          case Success(produced) =>
            outcome := produced;
          case Failure(error) =>
            stop := Guard(settings, world.after);
            outcome := ToolOutcome(Report(error.kind, error.message), true);
        }
      } else {
        outcome := ToolOutcome(Report(NotFound, "no tool of that name is available to this agent"), true);
      }
      Append(ToolMessage(call.callId, outcome));
      if stop.Some? {
        return Failure(stop.value);
      }
      return Success([CallFinished(call.callId, outcome)]);
    }

    method TakeStep(world: World) returns (r: Step)
      modifies this
      ensures (State(), r) == AgentRun.TakeStep(settings, old(State()), world)
    {
      var stopped := Guard(settings, world.before);
      if stopped.Some? {
        return Failure(stopped.value);
      }
      if !prepared {
        var failed := Prepare(world);
        if failed.Some? {
          return Failure(failed.value);
        }
        prepared := true;
      }
      r := Act(world);
    }

    /** The announced call, or the next pending one, or a turn. */
    method Act(world: World) returns (r: Step)
      modifies this
      ensures (State(), r) == AgentRun.Act(settings, old(State()), world)
    {
      if running.Some? {
        var call := running.value;
        running := None;
        r := CallTool(call, world);
      } else if pending != [] {
        r := Announce();
      } else {
        r := Turn(world);
      }
    }

    method AbandonOutstandingCalls(reason: Error)
      modifies this`running, this`pending, this`log
      ensures State() == Abandon(old(State()), reason)
    {
      var outstanding := (if running.Some? then [running.value] else []) + pending;
      running, pending := None, [];
      AnswerAbandoned(outstanding, reason);
    }

    method AnswerAbandoned(calls: seq<ToolCall>, reason: Error)
      modifies this`log
      ensures log == old(log) + AbandonedAll(calls, reason)
    {
      for i := 0 to |calls|
        invariant old(log) + AbandonedAll(calls, reason) == log + AbandonedAll(calls[i..], reason)
      {
        assert calls[i..][0] == calls[i] && calls[i..][1..] == calls[i + 1..];
        ghost var before, rest := log, AbandonedAll(calls[i + 1..], reason);
        Append(Abandoned(calls[i], reason));
        assert before + ([Abandoned(calls[i], reason)] + rest) == log + rest;
      }
    }

    method Advance(world: World) returns (r: Step)
      modifies this
      ensures (State(), r) == AgentRun.Advance(settings, old(State()), world)
    {
      r := TakeStep(world);
      if r.Failure? {
        AbandonOutstandingCalls(r.error);
      }
    }
  }

  lemma SplitStep(content: seq<ContentPart>, i: nat)
    requires i < |content|
    ensures CallsIn(content[..i + 1])
         == CallsIn(content[..i]) + (if content[i].Call? then [content[i].call] else [])
    ensures Shown(content[..i + 1]) == Shown(content[..i]) + (if content[i].Call? then [] else [content[i]])
  {
    assert content[..i + 1] == content[..i] + [content[i]];
    CallsInSnoc(content[..i], content[i]);
    ShownJoin(content[..i], content[i]);
  }

  lemma {:induction false} ShownJoin(front: seq<ContentPart>, last: ContentPart)
    ensures Shown(front + [last]) == Shown(front) + (if last.Call? then [] else [last])
  {
    if front == [] {
      assert [] + [last] == [last];
    } else {
      var whole, rest, tail := front + [last], front[1..], if last.Call? then [] else [last];
      assert whole[1..] == rest + [last] && whole[0] == front[0];
      ShownJoin(rest, last);
      var head := if front[0].Call? then [] else [front[0]];
      assert Shown(whole) == head + Shown(rest + [last]);
      assert head + (Shown(rest) + tail) == (head + Shown(rest)) + tail;
    }
  }

  // ---- The two drivers ----

  function AnsweredBy(updates: seq<Update>): Ending
    requires HasFinished(updates)
  {
    var last := updates[|updates| - 1];
    AgentDrivers.Answered(last.output, last.usage)
  }

  function Prefixed(seen: seq<Update>, driven: Driven): Driven {
    driven.(updates := seen + driven.updates)
  }

  /** A run begun at `start` has got to `s` after `i` actions, having produced `seen`. */
  ghost predicate Underway(settings: Settings, start: State, s: State, worlds: seq<World>, i: nat, seen: seq<Update>) {
    && i <= |worlds|
    && Bounded(settings, s) && Measure(settings, s) < |worlds| - i
    && Drive(settings, start, worlds) == Prefixed(seen, Drive(settings, s, worlds[i..]))
  }

  lemma Underway0(settings: Settings, s: State, worlds: seq<World>)
    requires Bounded(settings, s) && Measure(settings, s) < |worlds|
    ensures Underway(settings, s, s, worlds, 0, [])
  {
    assert worlds[0..] == worlds;
    assert [] + Drive(settings, s, worlds).updates == Drive(settings, s, worlds).updates;
  }

  lemma EndsOnTheAnswer(seen: seq<Update>, updates: seq<Update>)
    requires HasFinished(updates)
    ensures var last := updates[|updates| - 1];
            && (seen + updates)[|seen + updates| - 1] == last == Finished(last.output, last.usage)
            && AnsweredBy(updates) == AgentDrivers.Answered(last.output, last.usage)
  {
  }

  lemma DriveFirst(settings: Settings, s: State, worlds: seq<World>)
    requires worlds != []
    ensures var (s', step) := Advance(settings, s, worlds[0]);
            Drive(settings, s, worlds)
            == match step
               case Failure(error) => Driven(s', [], Failed(error))
               case Success(updates) =>
                 if HasFinished(updates) then Driven(s', updates, AnsweredBy(updates))
                 else Prefixed(updates, Drive(settings, s', worlds[1..]))
  {
  }

  lemma PrefixedTwice(first: seq<Update>, second: seq<Update>, driven: Driven)
    ensures Prefixed(first, Prefixed(second, driven)) == Prefixed(first + second, driven)
  {
    assert first + (second + driven.updates) == (first + second) + driven.updates;
  }

  lemma Onward(settings: Settings, start: State, s: State, worlds: seq<World>, i: nat, seen: seq<Update>)
    returns (s': State, step: Step)
    requires i < |worlds| && Underway(settings, start, s, worlds, i, seen)
    ensures (s', step) == Advance(settings, s, worlds[i])
    ensures FinishesCleanly(s', step)
    ensures step.Failure? ==> Drive(settings, start, worlds) == Driven(s', seen, Failed(step.error))
    ensures step.Success? && !HasFinished(step.value) ==>
              Underway(settings, start, s', worlds, i + 1, seen + step.value)
    ensures step.Success? && HasFinished(step.value) ==>
              Drive(settings, start, worlds) == Driven(s', seen + step.value, AnsweredBy(step.value))
  {
    AdvanceBounded(settings, s, worlds[i]);
    FinishedMeansDone(settings, s, worlds[i]);
    assert worlds[i..][0] == worlds[i] && worlds[i..][1..] == worlds[i + 1..];
    DriveFirst(settings, s, worlds[i..]);
    var next := Advance(settings, s, worlds[i]);
    s', step := next.0, next.1;
    match step
    case Failure(error) =>
      assert seen + [] == seen;
    case Success(updates) =>
      if !HasFinished(updates) {
        PrefixedTwice(seen, updates, Drive(settings, s', worlds[i + 1..]));
      }
  }

  /** One turn of either driver's loop. */
  method AdvanceOnce(run: Run, ghost start: State, worlds: seq<World>, i: nat, ghost seen: seq<Update>)
    returns (step: Step)
    requires Underway(run.settings, start, run.State(), worlds, i, seen)
    modifies run
    ensures step.Success? ==> forall k | 0 <= k < |step.value| && step.value[k].Finished? :: k == |step.value| - 1
    ensures step.Failure? ==> Drive(run.settings, start, worlds) == Driven(run.State(), seen, Failed(step.error))
    ensures step.Success? && !HasFinished(step.value) ==>
              Underway(run.settings, start, run.State(), worlds, i + 1, seen + step.value)
    ensures step.Success? && HasFinished(step.value) ==>
              Drive(run.settings, start, worlds) == Driven(run.State(), seen + step.value, AnsweredBy(step.value))
  {
    ghost var s', next := Onward(run.settings, start, run.State(), worlds, i, seen);
    step := run.Advance(worlds[i]);
  }

  /** The streaming form: every update of every action, then an error if one ended the run. */
  method Stream(run: Run, worlds: seq<World>) returns (updates: seq<Update>, failed: Option<Error>)
    requires Bounded(run.settings, run.State()) && Measure(run.settings, run.State()) < |worlds|
    modifies run
    ensures var driven := Drive(run.settings, old(run.State()), worlds);
            && run.State() == driven.state
            && updates == driven.updates
            && (if failed.Some? then driven.ending == Failed(failed.value) else driven.ending.Answered?)
  {
    updates := [];
    ghost var start := run.State();
    var i := 0;
    Underway0(run.settings, start, worlds);
    while true
      invariant i >= 0 && Underway(run.settings, start, run.State(), worlds, i, updates)
      decreases |worlds| - i
    {
      var step := AdvanceOnce(run, start, worlds, i, updates);
      i := i + 1;
      if step.Failure? {
        return updates, Some(step.error);
      }
      var finished: bool;
      updates, finished := Yield(step.value, updates);
      if finished {
        return updates, None;
      }
    }
  }

  /** Hands on the updates of one action, noticing whether any says the run has finished. */
  method Yield(produced: seq<Update>, before: seq<Update>) returns (updates: seq<Update>, finished: bool)
    requires forall i | 0 <= i < |produced| && produced[i].Finished? :: i == |produced| - 1
    ensures updates == before + produced && finished == HasFinished(produced)
  {
    updates, finished := before, false;
    for k := 0 to |produced|
      invariant updates == before + produced[..k]
      invariant finished <==> exists j | 0 <= j < k :: produced[j].Finished?
    {
      finished := finished || produced[k].Finished?;
      updates := updates + [produced[k]];
    }
    assert produced[..|produced|] == produced;
  }

  /** The first response among the updates of one action, if the run has finished. */
  method Response(produced: seq<Update>) returns (response: Option<(seq<ContentPart>, Option<Usage>)>)
    requires forall i | 0 <= i < |produced| && produced[i].Finished? :: i == |produced| - 1
    ensures response.Some? <==> HasFinished(produced)
    ensures response.Some? ==> produced[|produced| - 1] == Finished(response.value.0, response.value.1)
  {
    for k := 0 to |produced|
      invariant forall j | 0 <= j < k :: !produced[j].Finished?
    {
      if produced[k].Finished? {
        return Some((produced[k].output, produced[k].usage));
      }
    }
    return None;
  }

  /** The blocking form: the response of the run, or the error that ended it. It is the response the
      streaming form ends on, and the same error. */
  method RunToEnd(run: Run, worlds: seq<World>) returns (r: Result<(seq<ContentPart>, Option<Usage>), Error>)
    requires Bounded(run.settings, run.State()) && Measure(run.settings, run.State()) < |worlds|
    modifies run
    ensures var driven := Drive(run.settings, old(run.State()), worlds);
            && run.State() == driven.state
            && match r
               case Success(response) =>
                 && driven.ending == AgentDrivers.Answered(response.0, response.1)
                 && driven.updates != []
                 && driven.updates[|driven.updates| - 1] == Finished(response.0, response.1)
               case Failure(error) => driven.ending == Failed(error)
  {
    ghost var start := run.State();
    ghost var seen: seq<Update> := [];
    var i := 0;
    Underway0(run.settings, start, worlds);
    while true
      invariant i >= 0 && Underway(run.settings, start, run.State(), worlds, i, seen)
      decreases |worlds| - i
    {
      var step := AdvanceOnce(run, start, worlds, i, seen);
      i := i + 1;
      if step.Failure? {
        return Failure(step.error);
      }
      var response := Response(step.value);
      if response.Some? {
        EndsOnTheAnswer(seen, step.value);
        return Success(response.value);
      }
      seen := seen + step.value;
    }
  }
}
