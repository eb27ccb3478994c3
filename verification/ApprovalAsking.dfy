/** What becomes of a request before a human sees its question, and how long the question is good for, over
    whole runs of the rendezvous. */
module ApprovalAsking {
  import opened Wrappers
  import opened Words
  import opened Approval
  import opened ApprovalAnswers
  import opened ApprovalClosing

  // ---- When a question gives up ----

  /** No instant is left to ask in. */
  predicate TooLate(now: nat, timeout: nat, deadline: Option<nat>) {
    timeout == 0 || now >= U64_MAX || (deadline.Some? && deadline.value <= now)
  }

  /** When a question asked at `now` gives up: after now, no later than the caller's deadline, no later than
      the timeout, and as late as those and the clock's range allow. */
  predicate GivesUpAt(now: nat, timeout: nat, deadline: Option<nat>, expiresAt: nat) {
    && now < expiresAt <= now + timeout
    && (deadline.Some? ==> expiresAt <= deadline.value)
    && (expiresAt == now + timeout || expiresAt == U64_MAX || deadline == Some(expiresAt))
  }

  lemma ReadingTheClock(s: State, r: RequestId, now: nat, timeout: nat, deadline: Option<nat>)
    requires At(s, r, Heard)
    ensures var s' := Next(s, ReadClock(r, now, timeout, deadline));
            if TooLate(now, timeout, deadline) then At(s', r, Ended(None, Refused(Timeout)))
            else exists expiresAt :: At(s', r, Timed(now, expiresAt)) && GivesUpAt(now, timeout, deadline, expiresAt)
  {
    var s' := Next(s, ReadClock(r, now, timeout, deadline));
    if !TooLate(now, timeout, deadline) {
      assert At(s', r, Timed(now, s'.requests[r].expiresAt));
    }
  }

  /** A request that has read the clock in time, and whatever became of it since. */
  ghost predicate InTime(s: State, r: RequestId, now: nat, timeout: nat, deadline: Option<nat>) {
    r in s.requests
    && match s.requests[r]
       case Timed(at, expiresAt) => at == now && GivesUpAt(now, timeout, deadline, expiresAt)
       case Waiting(id) => AsksInTime(s.queue.waiting, id, now, timeout, deadline)
       case Resolved(id, _) => AsksInTime(s.queue.waiting, id, now, timeout, deadline)
       case Leaving(id, _) => AsksInTime(s.queue.waiting, id, now, timeout, deadline)
       case Ended(_, _) => true
       case _ => false
  }

  /** The question is asked as of `now`, and good until it should be. */
  predicate AsksInTime(waiting: map<ApprovalId, PendingApproval>, id: ApprovalId, now: nat, timeout: nat,
                       deadline: Option<nat>)
  {
    id in waiting ==>
      waiting[id].id == id && waiting[id].requestedAt == now
      && GivesUpAt(now, timeout, deadline, waiting[id].expiresAt)
  }

  /** Only parking files a question, a new one, and nothing rewrites one. */
  lemma FiledStays(s: State, a: Action, id: ApprovalId)
    requires Enabled(s, a) && id in Next(s, a).queue.waiting && id < s.nextId
    ensures id in s.queue.waiting && Next(s, a).queue.waiting[id] == s.queue.waiting[id]
  {
    match a
    case Park(r) => ParkedFilesOne(s, r, id);
    case DropGuard(r) => GuardFilesNothing(s, r, id);
    case TakeWaiter(c, g, taken, granted) => TakingFilesNothing(s, c, g, taken, granted, id);
    case _ => QueueIsLeft(s, a);
  }

  lemma GuardFilesNothing(s: State, r: RequestId, id: ApprovalId)
    requires r in s.requests && s.requests[r].Leaving? && id in GuardDropped(s, r).queue.waiting
    ensures id in s.queue.waiting && GuardDropped(s, r).queue.waiting[id] == s.queue.waiting[id]
  {
  }

  lemma TakingFilesNothing(s: State, c: CallId, g: GateId, taken: ApprovalId, granted: bool, id: ApprovalId)
    requires id in WaiterTaken(s, c, g, taken, granted).queue.waiting
    ensures id in s.queue.waiting && WaiterTaken(s, c, g, taken, granted).queue.waiting[id] == s.queue.waiting[id]
  {
  }

  lemma QueueIsLeft(s: State, a: Action)
    requires Enabled(s, a) && !a.Park? && !a.DropGuard? && !a.TakeWaiter?
    ensures Next(s, a).queue.waiting == if a.CloseBroker? then map[] else s.queue.waiting
  {
  }

  lemma ParkedFilesOne(s: State, r: RequestId, id: ApprovalId)
    requires r in s.requests && s.requests[r].Timed? && id != s.nextId && id in Parked(s, r).queue.waiting
    ensures id in s.queue.waiting && Parked(s, r).queue.waiting[id] == s.queue.waiting[id]
  {
  }

  lemma NextInTime(s: State, a: Action, r: RequestId, now: nat, timeout: nat, deadline: Option<nat>)
    requires Sound(s) && Enabled(s, a) && InTime(s, r, now, timeout, deadline)
    ensures InTime(Next(s, a), r, now, timeout, deadline)
  {
    if IdOf(s.requests[r]).Some? {
      var id := IdOf(s.requests[r]).value;
      if id in Next(s, a).queue.waiting {
        FiledStays(s, a, id);
      }
    }
    if Mover(a) != Some(r) {
      OthersStay(s, a, r);
    } else {
      MovesInTime(s, a, r, now, timeout, deadline);
    }
  }

  lemma MovesInTime(s: State, a: Action, r: RequestId, now: nat, timeout: nat, deadline: Option<nat>)
    requires Sound(s) && Enabled(s, a) && Mover(a) == Some(r) && InTime(s, r, now, timeout, deadline)
    requires IdOf(s.requests[r]).Some? ==>
               AsksInTime(Next(s, a).queue.waiting, IdOf(s.requests[r]).value, now, timeout, deadline)
    ensures InTime(Next(s, a), r, now, timeout, deadline)
  {
    if a.Park? {
      ParkedInTime(s, r, now, timeout, deadline);
    }
  }

  lemma ParkedInTime(s: State, r: RequestId, now: nat, timeout: nat, deadline: Option<nat>)
    requires r in s.requests && s.requests[r].Timed? && InTime(s, r, now, timeout, deadline)
    ensures InTime(Parked(s, r), r, now, timeout, deadline)
  {
  }

  lemma StepInTime(states: seq<State>, actions: seq<Action>, i: nat, r: RequestId, now: nat, timeout: nat,
                   deadline: Option<nat>)
    requires Run(states, actions) && i < |actions| && InTime(states[i], r, now, timeout, deadline)
    ensures InTime(states[i + 1], r, now, timeout, deadline)
  {
    RunSound(states, actions, i);
    NextInTime(states[i], actions[i], r, now, timeout, deadline);
  }

  lemma {:induction false} StaysInTime(states: seq<State>, actions: seq<Action>, i: nat, j: nat, r: RequestId, now: nat,
                                       timeout: nat, deadline: Option<nat>)
    requires Run(states, actions) && i <= j < |states| && InTime(states[i], r, now, timeout, deadline)
    ensures InTime(states[j], r, now, timeout, deadline)
    decreases j
  {
    if i < j {
      StaysInTime(states, actions, i, j - 1, r, now, timeout, deadline);
      StepInTime(states, actions, j - 1, r, now, timeout, deadline);
    }
  }

  lemma ClockIsRead(states: seq<State>, actions: seq<Action>, i: nat, r: RequestId, now: nat, timeout: nat,
                    deadline: Option<nat>)
    requires Run(states, actions) && i < |actions| && actions[i] == ReadClock(r, now, timeout, deadline)
    ensures if TooLate(now, timeout, deadline) then At(states[i + 1], r, Ended(None, Refused(Timeout)))
            else InTime(states[i + 1], r, now, timeout, deadline)
  {
    ReadingTheClock(states[i], r, now, timeout, deadline);
  }

  /** A request with no time left, by its own timeout, its caller's deadline or the clock's range, ends where
      it reads the clock and is never asked about. Any other is asked, if it comes to that, as of that
      reading, and gives up at the earlier of the deadline and the timeout. */
  lemma AskedOnlyInTime(states: seq<State>, actions: seq<Action>, i: nat, r: RequestId, now: nat, timeout: nat,
                        deadline: Option<nat>)
    requires Run(states, actions) && i < |actions| && actions[i] == ReadClock(r, now, timeout, deadline)
    ensures At(states[i + 1], r, Ended(None, Refused(Timeout)))
       <==> timeout == 0 || now >= U64_MAX || (deadline.Some? && deadline.value <= now)
    ensures forall j, id | i < j < |states| && id in states[j].queue.waiting && id in states[j].owner
                           && states[j].owner[id] == r ::
              var question := states[j].queue.waiting[id];
              && question.id == id && question.requestedAt == now < question.expiresAt <= now + timeout
              && (deadline.Some? ==> question.expiresAt <= deadline.value)
              && (|| question.expiresAt == now + timeout || question.expiresAt == U64_MAX
                  || deadline == Some(question.expiresAt))
  {
    ClockIsRead(states, actions, i, r, now, timeout, deadline);
    forall j, id | i < j < |states| && id in states[j].queue.waiting && id in states[j].owner
                   && states[j].owner[id] == r
      ensures states[j].queue.waiting[id].id == id && states[j].queue.waiting[id].requestedAt == now
      ensures GivesUpAt(now, timeout, deadline, states[j].queue.waiting[id].expiresAt)
    {
      RunSound(states, actions, j);
      if TooLate(now, timeout, deadline) {
        EndedStays(states, actions, i + 1, j, r);
      } else {
        StaysInTime(states, actions, i + 1, j, r, now, timeout, deadline);
      }
    }
  }

  lemma EndedStays(states: seq<State>, actions: seq<Action>, i: nat, j: nat, r: RequestId)
    requires Run(states, actions) && i <= j < |states| && r in states[i].requests && states[i].requests[r].Ended?
    ensures r in states[j].requests && states[j].requests[r] == states[i].requests[r]
  {
    RunPersists(states, actions, i, j);
  }

  // ---- When a request is turned away ----

  ghost predicate ClosedBefore(actions: seq<Action>, i: nat) {
    exists c: nat :: c < i && ClosesAt(actions, c)
  }

  lemma ClosedBeforeNext(actions: seq<Action>, i: nat)
    requires i < |actions|
    ensures ClosedBefore(actions, i + 1) <==> ClosedBefore(actions, i) || actions[i] == CloseBroker
  {
    if ClosedBefore(actions, i + 1) {
      var c: nat :| c < i + 1 && ClosesAt(actions, c);
    }
    if actions[i] == CloseBroker {
      assert ClosesAt(actions, i);
    }
  }

  lemma OnlyClosingCloses(s: State, a: Action)
    requires Enabled(s, a)
    ensures Next(s, a).queue.closed <==> s.queue.closed || a == CloseBroker
  {
  }

  lemma StepCloses(states: seq<State>, actions: seq<Action>, i: nat)
    requires Run(states, actions) && i < |actions|
    ensures states[i + 1].queue.closed <==> states[i].queue.closed || actions[i] == CloseBroker
  {
    OnlyClosingCloses(states[i], actions[i]);
  }

  lemma {:induction false} ClosedExactlyWhen(states: seq<State>, actions: seq<Action>, i: nat)
    requires Run(states, actions) && i < |states|
    ensures states[i].queue.closed <==> ClosedBefore(actions, i)
  {
    if i > 0 {
      ClosedExactlyWhen(states, actions, i - 1);
      StepCloses(states, actions, i - 1);
      ClosedBeforeNext(actions, i - 1);
    }
  }

  lemma GatesCounted(s: State)
    requires Sound(s)
    ensures s.queue.gates == 0 <==> s.liveGates == {}
  {
  }

  /** The checks a request makes before it reads the clock, over every run: it is turned away as cancelled
      exactly when the broker has closed or its caller has given up, and for want of a responder exactly when
      no gate is attached. */
  lemma TurnedAwayExactlyWhen(states: seq<State>, actions: seq<Action>, i: nat, r: RequestId, cancelled: bool)
    requires Run(states, actions) && i < |actions|
    ensures actions[i] == CheckClosed(r) ==>
              if ClosedBefore(actions, i) then At(states[i + 1], r, Ended(None, Refused(Cancelled)))
              else At(states[i + 1], r, Open)
    ensures actions[i] == CheckCancelled(r, cancelled) ==>
              if cancelled then At(states[i + 1], r, Ended(None, Refused(Cancelled)))
              else At(states[i + 1], r, NotCancelled)
    ensures actions[i] == CheckGates(r) ==>
              if states[i].liveGates == {} then At(states[i + 1], r, Ended(None, Refused(NoResponder)))
              else At(states[i + 1], r, Heard)
  {
    ClosedExactlyWhen(states, actions, i);
    RunSound(states, actions, i);
    GatesCounted(states[i]);
  }

  /** A request ready to ask is turned away exactly when the broker has closed or its queue is full, and
      otherwise its question, a new one, is put with the others and it waits. */
  lemma ParkedExactlyWhen(states: seq<State>, actions: seq<Action>, i: nat, r: RequestId)
    requires Run(states, actions) && i < |actions| && actions[i] == Park(r)
    ensures var s, s' := states[i], states[i + 1];
            if ClosedBefore(actions, i) then At(s', r, Ended(None, Refused(Cancelled))) && s'.queue == s.queue
            else if |s.queue.waiting| >= s.maxPending then
              At(s', r, Ended(None, Refused(QueueFull))) && s'.queue == s.queue
            else
              && s.nextId !in s.channels && s.nextId !in s.queue.waiting
              && At(s', r, Waiting(s.nextId)) && s'.queue.waiting.Keys == s.queue.waiting.Keys + {s.nextId}
  {
    ClosedExactlyWhen(states, actions, i);
    RunSound(states, actions, i);
    var s := states[i];
    if !s.queue.closed && |s.queue.waiting| < s.maxPending {
      ParkedFiles(s, r);
    }
  }

  lemma ParkedFiles(s: State, r: RequestId)
    requires Sound(s) && r in s.requests && s.requests[r].Timed? && !s.queue.closed && |s.queue.waiting| < s.maxPending
    ensures s.nextId !in s.channels && s.nextId !in s.queue.waiting
    ensures At(Parked(s, r), r, Waiting(s.nextId))
    ensures Parked(s, r).queue.waiting.Keys == s.queue.waiting.Keys + {s.nextId}
  {
    assert s.nextId !in s.owner;
    assert s.nextId !in s.channels.Keys;
  }

  /** What a request that waits comes to: cancellation wins over the timer, and both over the answer; and a
      channel that closed without one is a refusal. */
  lemma WaitEndsInOrder(states: seq<State>, actions: seq<Action>, i: nat, r: RequestId, cancelled: bool, elapsed: bool)
    requires Run(states, actions) && i < |actions| && actions[i] == Select(r, cancelled, elapsed)
    ensures r in states[i].requests && states[i].requests[r].Waiting?
    ensures var id := states[i].requests[r].id;
            && id in states[i].channels
            && (cancelled ==> At(states[i + 1], r, Resolved(id, Refused(Cancelled))))
            && (!cancelled && elapsed ==> At(states[i + 1], r, Resolved(id, Refused(Timeout))))
            && (!cancelled && !elapsed ==>
                  || (exists granted :: states[i].channels[id] == Sent(granted)
                                        && At(states[i + 1], r, Resolved(id, Answered(granted))))
                  || (states[i].channels[id] == SenderGone
                      && At(states[i + 1], r, Resolved(id, Refused(ChannelClosed)))))
  {
    var s := states[i];
    var id := s.requests[r].id;
    if s.channels[id].Sent? {
      assert s.channels[id] == Sent(s.channels[id].granted);
    }
  }

  /** A gate that comes is counted and one that goes is not: the count is of the gates that are there. */
  lemma GatesComeAndGo(states: seq<State>, actions: seq<Action>, i: nat, g: GateId)
    requires Run(states, actions) && i < |actions|
    ensures states[i].queue.gates == |states[i].liveGates|
    ensures actions[i] == Approval.Attach(g) ==> states[i + 1].liveGates == states[i].liveGates + {g}
    ensures actions[i] == Approval.Detach(g) ==> states[i + 1].liveGates == states[i].liveGates - {g}
    ensures actions[i] == Approval.Attach(g) ==> states[i + 1].queue.gates == states[i].queue.gates + 1
    ensures actions[i] == Approval.Detach(g) ==> states[i + 1].queue.gates == states[i].queue.gates - 1
  {
    RunSound(states, actions, i);
  }
}
