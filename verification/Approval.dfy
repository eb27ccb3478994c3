/** The approval rendezvous as a state machine over its atomic steps: lock sections, atomic accesses,
    sends, select outcomes and drops, interleaved in any order. */
module Approval {
  import opened Wrappers
  import opened Ordering
  import opened Words

  /** A question's identity, never reused. */
  type ApprovalId = nat
  type RequestId = nat
  type GateId = nat
  type CallId = nat

  datatype PendingApproval = PendingApproval(id: ApprovalId, requestedAt: nat, expiresAt: nat)

  datatype Refusal = Cancelled | Timeout | NoResponder | QueueFull | ChannelClosed | Abandoned

  /** How a request ended: with a human's answer or without one. */
  datatype Outcome = Answered(granted: bool) | Refused(why: Refusal)

  // ---- The shared queue ----

  datatype Queue = Queue(waiting: map<ApprovalId, PendingApproval>, closed: bool, gates: nat)

  /** The requester's lock section. */
  function Enqueue(q: Queue, pending: PendingApproval, maxPending: nat): (Queue, Option<Refusal>) {
    if q.closed then (q, Some(Cancelled))
    else if |q.waiting| >= maxPending then (q, Some(QueueFull))
    else (q.(waiting := q.waiting[pending.id := pending]), None)
  }

  /** The lock section of an answer and of the guard that ends a request. */
  function Withdraw(q: Queue, id: ApprovalId): Queue {
    q.(waiting := q.waiting - {id})
  }

  /** Closing sets the flag and takes every waiter, under one lock. */
  function Close(q: Queue): Queue {
    q.(closed := true, waiting := map[])
  }

  function Expiry(now: nat, timeout: nat, deadline: Option<nat>): nat {
    var configured := if now + timeout <= U64_MAX then now + timeout else U64_MAX;
    if deadline.Some? && deadline.value < configured then deadline.value else configured
  }

  // ---- The machine ----

  /** Where a request is. `Resolved` has its outcome and still holds its receiver; `Leaving` has
      dropped it and still holds its guard. */
  datatype Phase =
    | Begun
    | Open
    | NotCancelled
    | Heard
    | Timed(now: nat, expiresAt: nat)
    | Waiting(id: ApprovalId)
    | Resolved(id: ApprovalId, outcome: Outcome)
    | Leaving(id: ApprovalId, outcome: Outcome)
    | Ended(asked: Option<ApprovalId>, outcome: Outcome)

  function IdOf(phase: Phase): Option<ApprovalId> {
    match phase
    case Waiting(id) => Some(id)
    case Resolved(id, _) => Some(id)
    case Leaving(id, _) => Some(id)
    case Ended(asked, _) => asked
    case _ => None
  }

  function OutcomeOf(phase: Phase): Option<Outcome> {
    match phase
    case Resolved(_, outcome) => Some(outcome)
    case Leaving(_, outcome) => Some(outcome)
    case Ended(_, outcome) => Some(outcome)
    case _ => None
  }

  predicate ReceiverAlive(phase: Phase) {
    phase.Waiting? || phase.Resolved?
  }

  datatype Channel = Unsent | Sent(granted: bool) | SenderGone

  /** A gate's answer in progress: it holds the waiter between withdrawing it and sending. */
  datatype Call = Holding(gate: GateId, id: ApprovalId, granted: bool) | Accepted | NotFound

  datatype State = State(
    maxPending: nat,
    queue: Queue,
    liveGates: set<GateId>,
    requests: map<RequestId, Phase>,
    owner: map<ApprovalId, RequestId>,
    channels: map<ApprovalId, Channel>,
    calls: map<CallId, Call>,
    drained: set<ApprovalId>,
    successes: seq<(ApprovalId, bool)>,
    nextId: ApprovalId)

  function Initial(maxPending: nat): State {
    State(maxPending, Queue(map[], false, 0), {}, map[], map[], map[], map[], {}, [], 0)
  }

  datatype Action =
    | Begin(r: RequestId)
    | CheckClosed(r: RequestId)
    | CheckCancelled(r: RequestId, cancelled: bool)
    | CheckGates(r: RequestId)
    | ReadClock(r: RequestId, now: nat, timeout: nat, deadline: Option<nat>)
    | Park(r: RequestId)
    | Select(r: RequestId, cancelled: bool, elapsed: bool)
    | DropReceiver(r: RequestId)
    | DropFuture(r: RequestId)
    | DropGuard(r: RequestId)
    | Attach(g: GateId)
    | Detach(g: GateId)
    | TakeWaiter(c: CallId, g: GateId, id: ApprovalId, granted: bool)
    | Send(c: CallId)
    | CloseBroker
    | DropDrained(id: ApprovalId)

  predicate At(s: State, r: RequestId, phase: Phase) {
    r in s.requests && s.requests[r] == phase
  }

  predicate Enabled(s: State, a: Action) {
    match a
    case Begin(r) => r !in s.requests
    case CheckClosed(r) => At(s, r, Begun)
    case CheckCancelled(r, _) => At(s, r, Open)
    case CheckGates(r) => At(s, r, NotCancelled)
    case ReadClock(r, _, _, _) => At(s, r, Heard)
    case Park(r) => r in s.requests && s.requests[r].Timed?
    case Select(r, cancelled, elapsed) =>
      && r in s.requests && s.requests[r].Waiting? && s.requests[r].id in s.channels
      && (cancelled || elapsed || !s.channels[s.requests[r].id].Unsent?)
    case DropReceiver(r) => r in s.requests && s.requests[r].Resolved?
    case DropFuture(r) => r in s.requests && s.requests[r].Waiting?
    case DropGuard(r) => r in s.requests && s.requests[r].Leaving?
    case Attach(g) => g !in s.liveGates
    case Detach(g) =>
      && g in s.liveGates && s.queue.gates > 0
      && forall c | c in s.calls && s.calls[c].Holding? :: s.calls[c].gate != g
    case TakeWaiter(c, g, _, _) => c !in s.calls && g in s.liveGates
    case Send(c) =>
      && c in s.calls && s.calls[c].Holding?
      && s.calls[c].id in s.owner && s.owner[s.calls[c].id] in s.requests
    case CloseBroker => true
    case DropDrained(id) => id in s.drained
  }

  function Move(s: State, r: RequestId, phase: Phase): State {
    s.(requests := s.requests[r := phase])
  }

  /** What the biased select resolves to: cancellation, then the timer, then the answer. */
  function Resolution(cancelled: bool, elapsed: bool, channel: Channel): Outcome {
    if cancelled then Refused(Cancelled)
    else if elapsed then Refused(Timeout)
    else if channel.Sent? then Answered(channel.granted)
    else Refused(ChannelClosed)
  }

  /** The requester's lock section, and the guard that follows it with nothing in between. */
  function Parked(s: State, r: RequestId): State
    requires r in s.requests && s.requests[r].Timed?
  {
    var pending := PendingApproval(s.nextId, s.requests[r].now, s.requests[r].expiresAt);
    var (queue, refused) := Enqueue(s.queue, pending, s.maxPending);
    if refused.Some? then Move(s, r, Ended(None, Refused(refused.value)))
    else
      s.(queue := queue, requests := s.requests[r := Waiting(s.nextId)], owner := s.owner[s.nextId := r],
         channels := s.channels[s.nextId := Unsent], nextId := s.nextId + 1)
  }

  /** Taking a waiter out of the queue and dropping it, sender and all, if it is there. */
  function Dropped(s: State, id: ApprovalId): State {
    if id in s.queue.waiting then
      s.(queue := Withdraw(s.queue, id), channels := s.channels[id := SenderGone])
    else s
  }

  function GuardDropped(s: State, r: RequestId): State
    requires r in s.requests && s.requests[r].Leaving?
  {
    var id := s.requests[r].id;
    Move(Dropped(s, id), r, Ended(Some(id), s.requests[r].outcome))
  }

  /** The gate's lock section. */
  function WaiterTaken(s: State, c: CallId, g: GateId, id: ApprovalId, granted: bool): State {
    if id !in s.queue.waiting then s.(calls := s.calls[c := NotFound])
    else s.(queue := Withdraw(s.queue, id), calls := s.calls[c := Holding(g, id, granted)])
  }

  /** The send: it reaches a receiver that is still there, and otherwise drops the sender. */
  function AnswerSent(s: State, c: CallId): State
    requires c in s.calls && s.calls[c].Holding?
    requires s.calls[c].id in s.owner && s.owner[s.calls[c].id] in s.requests
  {
    var id, granted := s.calls[c].id, s.calls[c].granted;
    if ReceiverAlive(s.requests[s.owner[id]]) then
      s.(channels := s.channels[id := Sent(granted)], calls := s.calls[c := Accepted],
         successes := s.successes + [(id, granted)])
    else s.(channels := s.channels[id := SenderGone], calls := s.calls[c := NotFound])
  }

  function BrokerClosed(s: State): State {
    s.(queue := Close(s.queue), drained := s.drained + s.queue.waiting.Keys)
  }

  function DrainedDropped(s: State, id: ApprovalId): State {
    s.(drained := s.drained - {id}, channels := s.channels[id := SenderGone])
  }

  predicate IsCheck(a: Action) {
    a.CheckClosed? || a.CheckCancelled? || a.CheckGates? || a.ReadClock?
  }

  /** Where a request's own checks take it. */
  function Checked(s: State, a: Action): Phase
    requires IsCheck(a)
  {
    match a
    case CheckClosed(_) => if s.queue.closed then Ended(None, Refused(Cancelled)) else Open
    case CheckCancelled(_, cancelled) => if cancelled then Ended(None, Refused(Cancelled)) else NotCancelled
    case CheckGates(_) => if s.queue.gates == 0 then Ended(None, Refused(NoResponder)) else Heard
    case ReadClock(_, now, timeout, deadline) =>
      var expiresAt := Expiry(now, timeout, deadline);
      if expiresAt <= now then Ended(None, Refused(Timeout)) else Timed(now, expiresAt)
  }

  function Next(s: State, a: Action): State
    requires Enabled(s, a)
  {
    match a
    case Begin(r) => Move(s, r, Begun)
    case CheckClosed(r) => Move(s, r, Checked(s, a))
    case CheckCancelled(r, _) => Move(s, r, Checked(s, a))
    case CheckGates(r) => Move(s, r, Checked(s, a))
    case ReadClock(r, _, _, _) => Move(s, r, Checked(s, a))
    case Park(r) => Parked(s, r)
    case Select(r, cancelled, elapsed) =>
      var id := s.requests[r].id;
      Move(s, r, Resolved(id, Resolution(cancelled, elapsed, s.channels[id])))
    case DropReceiver(r) => Move(s, r, Leaving(s.requests[r].id, s.requests[r].outcome))
    case DropFuture(r) => Move(s, r, Leaving(s.requests[r].id, Refused(Abandoned)))
    case DropGuard(r) => GuardDropped(s, r)
    case Attach(g) => s.(liveGates := s.liveGates + {g}, queue := s.queue.(gates := s.queue.gates + 1))
    case Detach(g) => s.(liveGates := s.liveGates - {g}, queue := s.queue.(gates := s.queue.gates - 1))
    case TakeWaiter(c, g, id, granted) => WaiterTaken(s, c, g, id, granted)
    case Send(c) => AnswerSent(s, c)
    case CloseBroker => BrokerClosed(s)
    case DropDrained(id) => DrainedDropped(s, id)
  }

  // ---- What every step keeps ----

  ghost predicate QueueSound(maxPending: nat, queue: Queue, liveGates: set<GateId>) {
    && |queue.waiting| <= maxPending
    && (queue.closed ==> queue.waiting == map[])
    && queue.gates == |liveGates|
  }

  /** Every question belongs to the one request that asked it, and waits only while that request has
      not ended. */
  ghost predicate Owned(requests: map<RequestId, Phase>, owner: map<ApprovalId, RequestId>, nextId: ApprovalId,
                        waiting: set<ApprovalId>) {
    && (forall r | r in requests && IdOf(requests[r]).Some? ::
          IdOf(requests[r]).value in owner && owner[IdOf(requests[r]).value] == r)
    && (forall id | id in owner ::
          id < nextId && owner[id] in requests && IdOf(requests[owner[id]]) == Some(id))
    && (forall id | id in waiting :: id in owner && !requests[owner[id]].Ended?)
  }

  predicate Unsettled(channels: map<ApprovalId, Channel>, id: ApprovalId) {
    id in channels && channels[id].Unsent?
  }

  /** A question's sender is in at most one place, and unsent while it is in any. */
  ghost predicate SendersApart(channels: map<ApprovalId, Channel>, waiting: set<ApprovalId>,
                               drained: set<ApprovalId>, calls: map<CallId, Call>) {
    && (forall id | id in waiting :: Unsettled(channels, id) && id !in drained)
    && (forall id | id in drained :: Unsettled(channels, id))
    && (forall c | c in calls && calls[c].Holding? ::
          Unsettled(channels, calls[c].id) && calls[c].id !in waiting && calls[c].id !in drained)
    && (forall c, d | c in calls && d in calls && c != d && calls[c].Holding? && calls[d].Holding? ::
          calls[c].id != calls[d].id)
  }

  /** The answers that succeeded are exactly what was sent, one a question at most. */
  ghost predicate Remembered(channels: map<ApprovalId, Channel>, successes: seq<(ApprovalId, bool)>) {
    && (forall i | 0 <= i < |successes| ::
          successes[i].0 in channels && channels[successes[i].0] == Sent(successes[i].1))
    && (forall id | id in channels && channels[id].Sent? ::
          exists i :: 0 <= i < |successes| && successes[i].0 == id)
    && (forall i, j | 0 <= i < j < |successes| :: successes[i].0 != successes[j].0)
  }

  /** Every request's outcome agrees with its channel. */
  ghost predicate OutcomesTrue(requests: map<RequestId, Phase>, channels: map<ApprovalId, Channel>) {
    forall r | r in requests :: OutcomeFits(channels, requests[r])
  }

  ghost predicate Sound(s: State) {
    && QueueSound(s.maxPending, s.queue, s.liveGates)
    && Owned(s.requests, s.owner, s.nextId, s.queue.waiting.Keys)
    && s.channels.Keys == s.owner.Keys
    && SendersApart(s.channels, s.queue.waiting.Keys, s.drained, s.calls)
    && Remembered(s.channels, s.successes)
    && OutcomesTrue(s.requests, s.channels)
  }

  /** What an outcome may claim of the channel of the question it ends. */
  predicate OutcomeFits(channels: map<ApprovalId, Channel>, phase: Phase) {
    OutcomeOf(phase).Some? ==>
      match OutcomeOf(phase).value
      case Answered(granted) =>
        IdOf(phase).Some? && IdOf(phase).value in channels && channels[IdOf(phase).value] == Sent(granted)
      case Refused(why) =>
        why == ChannelClosed ==>
          IdOf(phase).Some? && IdOf(phase).value in channels && channels[IdOf(phase).value] == SenderGone
  }

  /** A request that moves on without changing its question keeps everything. */
  lemma MoveSound(s: State, r: RequestId, phase: Phase)
    requires Sound(s)
    requires IdOf(phase) == (if r in s.requests then IdOf(s.requests[r]) else None)
    requires phase.Ended? && IdOf(phase).Some? ==> IdOf(phase).value !in s.queue.waiting
    requires OutcomeFits(s.channels, phase)
    ensures Sound(Move(s, r, phase))
  {
  }

  lemma ParkSound(s: State, r: RequestId)
    requires Sound(s) && r in s.requests && s.requests[r].Timed?
    ensures Sound(Parked(s, r))
  {
    var pending := PendingApproval(s.nextId, s.requests[r].now, s.requests[r].expiresAt);
    var (queue, refused) := Enqueue(s.queue, pending, s.maxPending);
    if refused.Some? {
      MoveSound(s, r, Ended(None, Refused(refused.value)));
    } else {
      WaitSound(s, r, pending);
    }
  }

  lemma WaitSound(s: State, r: RequestId, pending: PendingApproval)
    requires Sound(s) && r in s.requests && IdOf(s.requests[r]).None?
    requires pending.id == s.nextId && Enqueue(s.queue, pending, s.maxPending).1.None?
    ensures Sound(s.(queue := Enqueue(s.queue, pending, s.maxPending).0, requests := s.requests[r := Waiting(s.nextId)],
                     owner := s.owner[s.nextId := r], channels := s.channels[s.nextId := Unsent],
                     nextId := s.nextId + 1))
  {
    EnqueuedSound(s, pending);
    assert s.channels[s.nextId := Unsent].Keys == s.owner[s.nextId := r].Keys;
    ParkedOwned(s.requests, s.owner, s.nextId, s.queue.waiting.Keys, r);
    ParkedApart(s.channels, s.queue.waiting.Keys, s.drained, s.calls, s.nextId);
    ParkedRemembered(s.requests, s.channels, s.successes, s.nextId, r);
  }

  lemma EnqueuedSound(s: State, pending: PendingApproval)
    requires Sound(s) && pending.id == s.nextId && Enqueue(s.queue, pending, s.maxPending).1.None?
    ensures var queue := Enqueue(s.queue, pending, s.maxPending).0;
            && queue.waiting.Keys == s.queue.waiting.Keys + {s.nextId}
            && QueueSound(s.maxPending, queue, s.liveGates)
    ensures s.nextId !in s.owner && s.nextId !in s.channels && s.nextId !in s.queue.waiting
  {
    assert s.nextId !in s.owner;
    assert s.nextId !in s.channels.Keys;
  }

  lemma ParkedOwned(requests: map<RequestId, Phase>, owner: map<ApprovalId, RequestId>, nextId: ApprovalId,
                    waiting: set<ApprovalId>, r: RequestId)
    requires Owned(requests, owner, nextId, waiting) && r in requests && IdOf(requests[r]).None?
    ensures Owned(requests[r := Waiting(nextId)], owner[nextId := r], nextId + 1, waiting + {nextId})
  {
  }

  lemma ParkedApart(channels: map<ApprovalId, Channel>, waiting: set<ApprovalId>, drained: set<ApprovalId>,
                    calls: map<CallId, Call>, id: ApprovalId)
    requires SendersApart(channels, waiting, drained, calls) && id !in channels
    ensures SendersApart(channels[id := Unsent], waiting + {id}, drained, calls)
  {
  }

  lemma ParkedRemembered(requests: map<RequestId, Phase>, channels: map<ApprovalId, Channel>,
                         successes: seq<(ApprovalId, bool)>, id: ApprovalId, r: RequestId)
    requires Remembered(channels, successes) && OutcomesTrue(requests, channels) && id !in channels
    ensures Remembered(channels[id := Unsent], successes)
    ensures OutcomesTrue(requests[r := Waiting(id)], channels[id := Unsent])
  {
    var parked := channels[id := Unsent];
    forall k | k in parked && parked[k].Sent? ensures exists i :: 0 <= i < |successes| && successes[i].0 == k {
      assert channels[k].Sent?;
    }
    forall x | x in requests ensures OutcomeFits(parked, requests[x]) {
      assert OutcomeFits(channels, requests[x]);
    }
  }

  lemma SelectSound(s: State, r: RequestId, cancelled: bool, elapsed: bool)
    requires Sound(s) && r in s.requests && s.requests[r].Waiting? && s.requests[r].id in s.channels
    requires cancelled || elapsed || !s.channels[s.requests[r].id].Unsent?
    ensures var id := s.requests[r].id;
            Sound(Move(s, r, Resolved(id, Resolution(cancelled, elapsed, s.channels[id]))))
  {
    var id := s.requests[r].id;
    MoveSound(s, r, Resolved(id, Resolution(cancelled, elapsed, s.channels[id])));
  }

  lemma DropGuardSound(s: State, r: RequestId)
    requires Sound(s) && r in s.requests && s.requests[r].Leaving?
    ensures Sound(GuardDropped(s, r))
  {
    var id := s.requests[r].id;
    DroppedSound(s, id);
    var s1 := Dropped(s, id);
    assert OutcomeFits(s1.channels, s1.requests[r]);
    MoveSound(s1, r, Ended(Some(id), s.requests[r].outcome));
  }

  lemma DroppedSound(s: State, id: ApprovalId)
    requires Sound(s)
    ensures Sound(Dropped(s, id)) && id !in Dropped(s, id).queue.waiting
  {
    if id in s.queue.waiting {
      WithdrawSound(s, id);
      WithdrawnApart(s.channels, s.queue.waiting.Keys, s.drained, s.calls, id);
      ChannelSettles(s.requests, s.channels, s.successes, id);
    }
  }

  /** Withdrawing leaves the queue sound and everyone's questions theirs. */
  lemma WithdrawSound(s: State, id: ApprovalId)
    requires Sound(s)
    ensures Withdraw(s.queue, id).waiting.Keys == s.queue.waiting.Keys - {id}
    ensures QueueSound(s.maxPending, Withdraw(s.queue, id), s.liveGates)
    ensures Owned(s.requests, s.owner, s.nextId, s.queue.waiting.Keys - {id})
  {
    assert (s.queue.waiting - {id}).Keys == s.queue.waiting.Keys - {id};
    Subset((s.queue.waiting - {id}).Keys, s.queue.waiting.Keys);
  }

  lemma WithdrawnApart(channels: map<ApprovalId, Channel>, waiting: set<ApprovalId>, drained: set<ApprovalId>,
                       calls: map<CallId, Call>, id: ApprovalId)
    requires SendersApart(channels, waiting, drained, calls) && id in waiting
    ensures SendersApart(channels[id := SenderGone], waiting - {id}, drained, calls)
  {
  }

  /** Losing an unsent sender touches no success and no outcome. */
  lemma ChannelSettles(requests: map<RequestId, Phase>, channels: map<ApprovalId, Channel>,
                       successes: seq<(ApprovalId, bool)>, id: ApprovalId)
    requires Remembered(channels, successes) && OutcomesTrue(requests, channels) && Unsettled(channels, id)
    ensures Remembered(channels[id := SenderGone], successes)
    ensures OutcomesTrue(requests, channels[id := SenderGone])
  {
    var settled := channels[id := SenderGone];
    forall k | k in settled && settled[k].Sent? ensures exists i :: 0 <= i < |successes| && successes[i].0 == k {
      assert channels[k].Sent?;
    }
    forall r | r in requests ensures OutcomeFits(settled, requests[r]) {
      assert OutcomeFits(channels, requests[r]);
    }
  }

  lemma GatesSound(s: State, liveGates: set<GateId>, gates: nat)
    requires Sound(s) && gates == |liveGates|
    ensures Sound(s.(liveGates := liveGates, queue := s.queue.(gates := gates)))
  {
  }

  /** A live gate is always counted, so the counter never goes below zero. */
  lemma DetachNeverUnderflows(s: State, g: GateId)
    requires Sound(s) && g in s.liveGates
    ensures s.queue.gates > 0
  {
    Subset({g}, s.liveGates);
  }

  lemma TakeWaiterSound(s: State, c: CallId, g: GateId, id: ApprovalId, granted: bool)
    requires Sound(s) && c !in s.calls
    ensures Sound(WaiterTaken(s, c, g, id, granted))
  {
    if id in s.queue.waiting {
      WithdrawSound(s, id);
      TakenApart(s.channels, s.queue.waiting.Keys, s.drained, s.calls, c, Holding(g, id, granted));
    }
  }

  lemma TakenApart(channels: map<ApprovalId, Channel>, waiting: set<ApprovalId>, drained: set<ApprovalId>,
                   calls: map<CallId, Call>, c: CallId, call: Call)
    requires SendersApart(channels, waiting, drained, calls) && c !in calls
    requires call.Holding? && call.id in waiting
    ensures SendersApart(channels, waiting - {call.id}, drained, calls[c := call])
  {
  }

  lemma SendSound(s: State, c: CallId)
    requires Sound(s) && c in s.calls && s.calls[c].Holding?
    requires s.calls[c].id in s.owner && s.owner[s.calls[c].id] in s.requests
    ensures Sound(AnswerSent(s, c))
  {
    var id, granted := s.calls[c].id, s.calls[c].granted;
    var s' := AnswerSent(s, c);
    SendFreesSender(s.channels, s.queue.waiting.Keys, s.drained, s.calls, c, s'.channels[id], s'.calls[c]);
    if ReceiverAlive(s.requests[s.owner[id]]) {
      SentRemembered(s.requests, s.channels, s.successes, id, granted);
    } else {
      ChannelSettles(s.requests, s.channels, s.successes, id);
    }
  }

  lemma SendFreesSender(channels: map<ApprovalId, Channel>, waiting: set<ApprovalId>, drained: set<ApprovalId>,
                        calls: map<CallId, Call>, c: CallId, channel: Channel, call: Call)
    requires SendersApart(channels, waiting, drained, calls) && c in calls && calls[c].Holding? && !call.Holding?
    ensures SendersApart(channels[calls[c].id := channel], waiting, drained, calls[c := call])
  {
  }

  lemma SentRemembered(requests: map<RequestId, Phase>, channels: map<ApprovalId, Channel>,
                       successes: seq<(ApprovalId, bool)>, id: ApprovalId, granted: bool)
    requires Remembered(channels, successes) && OutcomesTrue(requests, channels) && Unsettled(channels, id)
    ensures Remembered(channels[id := Sent(granted)], successes + [(id, granted)])
    ensures OutcomesTrue(requests, channels[id := Sent(granted)])
  {
    var sent, all := channels[id := Sent(granted)], successes + [(id, granted)];
    assert forall i | 0 <= i < |successes| :: all[i] == successes[i] && successes[i].0 != id;
    forall k | k in sent && sent[k].Sent? ensures exists i :: 0 <= i < |all| && all[i].0 == k {
      if k == id {
        assert all[|successes|].0 == k;
      } else {
        assert channels[k].Sent?;
        var i :| 0 <= i < |successes| && successes[i].0 == k;
        assert all[i].0 == k;
      }
    }
    forall r | r in requests ensures OutcomeFits(sent, requests[r]) {
      assert OutcomeFits(channels, requests[r]);
    }
  }

  lemma CloseSound(s: State)
    requires Sound(s)
    ensures Sound(BrokerClosed(s))
  {
    var none: map<ApprovalId, PendingApproval> := map[];
    assert none.Keys == {};
    ClosedApart(s.channels, s.queue.waiting.Keys, s.drained, s.calls);
  }

  lemma ClosedApart(channels: map<ApprovalId, Channel>, waiting: set<ApprovalId>, drained: set<ApprovalId>,
                    calls: map<CallId, Call>)
    requires SendersApart(channels, waiting, drained, calls)
    ensures SendersApart(channels, {}, drained + waiting, calls)
  {
  }

  lemma DropDrainedSound(s: State, id: ApprovalId)
    requires Sound(s) && id in s.drained
    ensures Sound(DrainedDropped(s, id))
  {
    DrainedApart(s.channels, s.queue.waiting.Keys, s.drained, s.calls, id);
    ChannelSettles(s.requests, s.channels, s.successes, id);
  }

  lemma DrainedApart(channels: map<ApprovalId, Channel>, waiting: set<ApprovalId>, drained: set<ApprovalId>,
                     calls: map<CallId, Call>, id: ApprovalId)
    requires SendersApart(channels, waiting, drained, calls) && id in drained
    ensures SendersApart(channels[id := SenderGone], waiting, drained - {id}, calls)
  {
  }

  lemma RequestSound(s: State, a: Action)
    requires Sound(s) && Enabled(s, a) && (a.Begin? || IsCheck(a) || a.Select? || a.DropReceiver? || a.DropFuture?)
    ensures Sound(Next(s, a))
  {
    match a
    case Begin(r) => MoveSound(s, r, Begun);
    case Select(r, cancelled, elapsed) => SelectSound(s, r, cancelled, elapsed);
    case DropReceiver(r) => LeaveSound(s, r);
    case DropFuture(r) => MoveSound(s, r, Leaving(s.requests[r].id, Refused(Abandoned)));
    case CheckClosed(r) => MoveSound(s, r, Checked(s, a));
    case CheckCancelled(r, _) => MoveSound(s, r, Checked(s, a));
    case CheckGates(r) => MoveSound(s, r, Checked(s, a));
    case ReadClock(r, _, _, _) => MoveSound(s, r, Checked(s, a));
  }

  lemma NextSound(s: State, a: Action)
    requires Sound(s) && Enabled(s, a)
    ensures Sound(Next(s, a))
  {
    match a
    case Park(r) => ParkSound(s, r);
    case DropGuard(r) => DropGuardSound(s, r);
    case Attach(g) => GatesSound(s, s.liveGates + {g}, s.queue.gates + 1);
    case Detach(g) => GatesSound(s, s.liveGates - {g}, s.queue.gates - 1);
    case TakeWaiter(c, g, id, granted) => TakeWaiterSound(s, c, g, id, granted);
    case Send(c) => SendSound(s, c);
    case CloseBroker => CloseSound(s);
    case DropDrained(id) => DropDrainedSound(s, id);
    case _ => RequestSound(s, a);
  }

  lemma LeaveSound(s: State, r: RequestId)
    requires Sound(s) && r in s.requests && s.requests[r].Resolved?
    ensures Sound(Move(s, r, Leaving(s.requests[r].id, s.requests[r].outcome)))
  {
    assert OutcomeFits(s.channels, s.requests[r]);
    MoveSound(s, r, Leaving(s.requests[r].id, s.requests[r].outcome));
  }

  // ---- Every interleaving ----

  /** A run: from the initial state, each step enabled where it is taken. */
  ghost predicate Run(states: seq<State>, actions: seq<Action>) {
    && |states| == |actions| + 1
    && states[0] == Initial(states[0].maxPending)
    && forall i {:trigger actions[i]} | 0 <= i < |actions| ::
         Enabled(states[i], actions[i]) && states[i + 1] == Next(states[i], actions[i])
  }

  lemma {:induction false} RunSound(states: seq<State>, actions: seq<Action>, i: nat)
    requires Run(states, actions) && i < |states|
    ensures Sound(states[i])
  {
    if i > 0 {
      RunSound(states, actions, i - 1);
      NextSound(states[i - 1], actions[i - 1]);
    }
  }

  /** How many answers to this question succeeded with this value. */
  function Successes(successes: seq<(ApprovalId, bool)>, id: ApprovalId, granted: bool): nat {
    if successes == [] then 0
    else
      (if successes[0] == (id, granted) then 1 else 0) + Successes(successes[1..], id, granted)
  }

  lemma {:induction false} SuccessesCount(successes: seq<(ApprovalId, bool)>, id: ApprovalId, granted: bool)
    requires forall i, j | 0 <= i < j < |successes| :: successes[i].0 != successes[j].0
    ensures Successes(successes, id, granted) == (if (id, granted) in successes then 1 else 0)
    ensures (id, granted) in successes ==> Successes(successes, id, !granted) == 0
  {
    if successes != [] {
      var rest := successes[1..];
      assert forall i, j | 0 <= i < j < |rest| :: rest[i].0 != rest[j].0;
      SuccessesCount(rest, id, granted);
      SuccessesCount(rest, id, !granted);
      assert forall k | 0 <= k < |rest| :: rest[k].0 != successes[0].0;
    }
  }

  /** Across all gates at most one answer to a question succeeds. */
  lemma AtMostOneAnswer(states: seq<State>, actions: seq<Action>, i: nat, id: ApprovalId)
    requires Run(states, actions) && i < |states|
    ensures Successes(states[i].successes, id, true) + Successes(states[i].successes, id, false) <= 1
  {
    RunSound(states, actions, i);
    SuccessesCount(states[i].successes, id, true);
    SuccessesCount(states[i].successes, id, false);
  }

  // ---- For ever ----

  /** What no later state takes back. */
  ghost predicate Persists(s: State, s': State) {
    && (s.queue.closed ==> s'.queue.closed)
    && s.nextId <= s'.nextId
    && (forall r | r in s.requests && s.requests[r].Ended? :: r in s'.requests && s'.requests[r] == s.requests[r])
    && (forall id | id in s.channels && !s.channels[id].Unsent? ::
          id in s'.channels && s'.channels[id] == s.channels[id])
  }

  /** A step keeps what has ended and what has settled. */
  lemma NextPersists(s: State, a: Action)
    requires Sound(s) && Enabled(s, a)
    ensures Persists(s, Next(s, a))
  {
    match a
    case Park(r) => ParkPersists(s, r);
    case DropGuard(r) => DropGuardPersists(s, r);
    case Send(c) => SendPersists(s, c);
    case DropDrained(id) => assert Unsettled(s.channels, id);
    case _ =>
  }

  lemma ParkPersists(s: State, r: RequestId)
    requires Sound(s) && r in s.requests && s.requests[r].Timed?
    ensures Persists(s, Parked(s, r))
  {
    assert s.nextId !in s.channels;
  }

  lemma DropGuardPersists(s: State, r: RequestId)
    requires Sound(s) && r in s.requests && s.requests[r].Leaving?
    ensures Persists(s, GuardDropped(s, r))
  {
    assert s.requests[r].id in s.queue.waiting ==> Unsettled(s.channels, s.requests[r].id);
  }

  lemma SendPersists(s: State, c: CallId)
    requires Sound(s) && c in s.calls && s.calls[c].Holding?
    requires s.calls[c].id in s.owner && s.owner[s.calls[c].id] in s.requests
    ensures Persists(s, AnswerSent(s, c))
  {
    assert Unsettled(s.channels, s.calls[c].id);
  }

  lemma PersistsTransitive(a: State, b: State, c: State)
    requires Persists(a, b) && Persists(b, c)
    ensures Persists(a, c)
  {
  }

  lemma StepPersists(states: seq<State>, actions: seq<Action>, i: nat)
    requires Run(states, actions) && i < |actions|
    ensures Persists(states[i], states[i + 1])
  {
    RunSound(states, actions, i);
    NextPersists(states[i], actions[i]);
  }

  lemma {:induction false} RunPersists(states: seq<State>, actions: seq<Action>, i: nat, j: nat)
    requires Run(states, actions) && i <= j < |states|
    ensures Persists(states[i], states[j])
    decreases j
  {
    if i < j {
      RunPersists(states, actions, i, j - 1);
      StepPersists(states, actions, j - 1);
      PersistsTransitive(states[i], states[j - 1], states[j]);
    }
  }

  /** The queue never exceeds its bound, stays empty once closed, and counts exactly the live gates;
      a question whose request has ended, by whatever route, is in the queue at no later moment. */
  lemma QueueStaysSound(states: seq<State>, actions: seq<Action>, i: nat, j: nat)
    requires Run(states, actions) && i <= j < |states|
    ensures QueueSound(states[j].maxPending, states[j].queue, states[j].liveGates)
    ensures states[i].queue.closed ==> states[j].queue.closed && states[j].queue.waiting == map[]
    ensures forall r | r in states[i].requests && states[i].requests[r].Ended? && states[i].requests[r].asked.Some? ::
              states[i].requests[r].asked.value !in states[j].queue.waiting
  {
    RunSound(states, actions, j);
    RunPersists(states, actions, i, j);
    forall r | r in states[i].requests && states[i].requests[r].Ended? && states[i].requests[r].asked.Some?
      ensures states[i].requests[r].asked.value !in states[j].queue.waiting
    {
      assert states[j].requests[r] == states[i].requests[r];
      assert IdOf(states[j].requests[r]) == states[i].requests[r].asked;
    }
  }

  // ---- What a dropped channel means ----

  /** While the broker is open nothing is being drained, a question has lost its sender only if its
      request has let go of the receiver, and no request was told its channel closed. */
  ghost predicate OpenMeansKept(requests: map<RequestId, Phase>, owner: map<ApprovalId, RequestId>,
                                channels: map<ApprovalId, Channel>, drained: set<ApprovalId>) {
    && drained == {}
    && (forall id | id in channels && channels[id].SenderGone? ::
          id in owner && owner[id] in requests && !ReceiverAlive(requests[owner[id]]))
    && (forall r | r in requests :: OutcomeOf(requests[r]) != Some(Refused(ChannelClosed)))
  }

  ghost predicate ClosedExplains(s: State) {
    s.queue.closed || OpenMeansKept(s.requests, s.owner, s.channels, s.drained)
  }

  lemma MoveExplains(s: State, r: RequestId, phase: Phase)
    requires Sound(s) && OpenMeansKept(s.requests, s.owner, s.channels, s.drained)
    requires IdOf(phase) == (if r in s.requests then IdOf(s.requests[r]) else None)
    requires ReceiverAlive(phase) ==> r in s.requests && ReceiverAlive(s.requests[r])
    requires OutcomeOf(phase) != Some(Refused(ChannelClosed))
    ensures OpenMeansKept(s.requests[r := phase], s.owner, s.channels, s.drained)
  {
  }

  lemma NextExplains(s: State, a: Action)
    requires Sound(s) && ClosedExplains(s) && Enabled(s, a)
    ensures ClosedExplains(Next(s, a))
  {
    if s.queue.closed {
      NextPersists(s, a);
    } else {
      match a
      case Begin(r) => MoveExplains(s, r, Begun);
      case CheckClosed(r) => CheckExplains(s, a, r);
      case CheckCancelled(r, _) => CheckExplains(s, a, r);
      case CheckGates(r) => CheckExplains(s, a, r);
      case ReadClock(r, _, _, _) => CheckExplains(s, a, r);
      case Park(r) => ParkExplains(s, r);
      case Select(r, cancelled, elapsed) => SelectExplains(s, r, cancelled, elapsed);
      case DropReceiver(r) => MoveExplains(s, r, Leaving(s.requests[r].id, s.requests[r].outcome));
      case DropFuture(r) => MoveExplains(s, r, Leaving(s.requests[r].id, Refused(Abandoned)));
      case DropGuard(r) => DropGuardExplains(s, r);
      case Send(c) => SendExplains(s, c);
      case _ =>
    }
  }

  lemma CheckExplains(s: State, a: Action, r: RequestId)
    requires Sound(s) && OpenMeansKept(s.requests, s.owner, s.channels, s.drained)
    requires IsCheck(a)
    requires r in s.requests && IdOf(s.requests[r]).None?
    ensures ClosedExplains(Move(s, r, Checked(s, a)))
  {
    MoveExplains(s, r, Checked(s, a));
  }

  lemma SelectExplains(s: State, r: RequestId, cancelled: bool, elapsed: bool)
    requires Sound(s) && OpenMeansKept(s.requests, s.owner, s.channels, s.drained)
    requires r in s.requests && s.requests[r].Waiting? && s.requests[r].id in s.channels
    requires cancelled || elapsed || !s.channels[s.requests[r].id].Unsent?
    ensures var id := s.requests[r].id;
            ClosedExplains(Move(s, r, Resolved(id, Resolution(cancelled, elapsed, s.channels[id]))))
  {
    var id := s.requests[r].id;
    assert s.owner[id] == r;
    MoveExplains(s, r, Resolved(id, Resolution(cancelled, elapsed, s.channels[id])));
  }

  lemma ParkExplains(s: State, r: RequestId)
    requires Sound(s) && OpenMeansKept(s.requests, s.owner, s.channels, s.drained) && !s.queue.closed
    requires r in s.requests && s.requests[r].Timed?
    ensures ClosedExplains(Parked(s, r))
  {
    var pending := PendingApproval(s.nextId, s.requests[r].now, s.requests[r].expiresAt);
    if |s.queue.waiting| >= s.maxPending {
      MoveExplains(s, r, Ended(None, Refused(QueueFull)));
    } else {
      EnqueuedSound(s, pending);
      ParkedExplains(s.requests, s.owner, s.channels, s.drained, s.nextId, r);
    }
  }

  lemma ParkedExplains(requests: map<RequestId, Phase>, owner: map<ApprovalId, RequestId>,
                       channels: map<ApprovalId, Channel>, drained: set<ApprovalId>, id: ApprovalId, r: RequestId)
    requires OpenMeansKept(requests, owner, channels, drained)
    requires r in requests && IdOf(requests[r]).None? && id !in owner && id !in channels
    requires forall k | k in owner :: owner[k] in requests && IdOf(requests[owner[k]]) == Some(k)
    ensures OpenMeansKept(requests[r := Waiting(id)], owner[id := r], channels[id := Unsent], drained)
  {
  }

  lemma DropGuardExplains(s: State, r: RequestId)
    requires Sound(s) && OpenMeansKept(s.requests, s.owner, s.channels, s.drained)
    requires r in s.requests && s.requests[r].Leaving?
    ensures ClosedExplains(GuardDropped(s, r))
  {
    assert s.owner[s.requests[r].id] == r;
    MoveExplains(s, r, Ended(Some(s.requests[r].id), s.requests[r].outcome));
  }

  lemma SendExplains(s: State, c: CallId)
    requires Sound(s) && OpenMeansKept(s.requests, s.owner, s.channels, s.drained)
    requires c in s.calls && s.calls[c].Holding?
    requires s.calls[c].id in s.owner && s.owner[s.calls[c].id] in s.requests
    ensures ClosedExplains(AnswerSent(s, c))
  {
  }

  lemma {:induction false} RunExplains(states: seq<State>, actions: seq<Action>, i: nat)
    requires Run(states, actions) && i < |states|
    ensures ClosedExplains(states[i])
  {
    if i > 0 {
      RunExplains(states, actions, i - 1);
      RunSound(states, actions, i - 1);
      assert actions[i - 1] in actions;
      NextExplains(states[i - 1], actions[i - 1]);
    }
  }

  /** A request learns that its channel closed only because the broker did. */
  lemma ChannelClosesOnlyWithTheBroker(states: seq<State>, actions: seq<Action>, i: nat, r: RequestId)
    requires Run(states, actions) && i < |states|
    requires r in states[i].requests && OutcomeOf(states[i].requests[r]) == Some(Refused(ChannelClosed))
    ensures states[i].queue.closed
  {
    RunExplains(states, actions, i);
  }
}
