/** What an answer given through a gate comes to, over whole runs of the rendezvous: which answers a
    request returns, when they were sent, and which accepted answers it does not return. */
module ApprovalAnswers {
  import opened Wrappers
  import opened Approval

  /** Step `k` sends an answer to a question, and the send succeeds. */
  ghost predicate Accepts(states: seq<State>, actions: seq<Action>, k: nat, id: ApprovalId, granted: bool)
    requires Run(states, actions)
  {
    && k < |actions| && actions[k].Send?
    && Gives(states[k].calls, actions[k].c, id, granted)
    && states[k + 1].calls[actions[k].c] == Accepted
  }

  /** The call holds the question's waiter, to answer it so. */
  predicate Gives(calls: map<CallId, Call>, c: CallId, id: ApprovalId, granted: bool) {
    c in calls && calls[c].Holding? && calls[c].id == id && calls[c].granted == granted
  }

  // ---- Which request a step moves ----

  function Mover(a: Action): Option<RequestId> {
    match a
    case Begin(r) => Some(r)
    case CheckClosed(r) => Some(r)
    case CheckCancelled(r, _) => Some(r)
    case CheckGates(r) => Some(r)
    case ReadClock(r, _, _, _) => Some(r)
    case Park(r) => Some(r)
    case Select(r, _, _) => Some(r)
    case DropReceiver(r) => Some(r)
    case DropFuture(r) => Some(r)
    case DropGuard(r) => Some(r)
    case _ => None
  }

  lemma OthersStay(s: State, a: Action, r: RequestId)
    requires Enabled(s, a) && Mover(a) != Some(r)
    ensures r in s.requests <==> r in Next(s, a).requests
    ensures r in s.requests ==> Next(s, a).requests[r] == s.requests[r]
  {
  }

  /** Only parking starts a wait, on a question with no answer yet. */
  lemma WaitBegins(s: State, a: Action, r: RequestId, id: ApprovalId)
    requires Enabled(s, a) && Mover(a) == Some(r) && At(Next(s, a), r, Waiting(id))
    ensures a.Park? && id in Next(s, a).channels && Next(s, a).channels[id] == Unsent
  {
  }

  /** An outcome comes from a select, or from dropping the future, and stays. */
  lemma OutcomeComes(s: State, a: Action, r: RequestId)
    requires Enabled(s, a) && r in s.requests && s.requests[r].Waiting? && Mover(a) == Some(r)
    ensures r in Next(s, a).requests && IdOf(Next(s, a).requests[r]) == Some(s.requests[r].id)
    ensures a.Select? || a.DropFuture?
    ensures a.DropFuture? ==> OutcomeOf(Next(s, a).requests[r]) == Some(Refused(Abandoned))
    ensures a.Select? ==> s.requests[r].id in s.channels
    ensures a.Select? ==>
              OutcomeOf(Next(s, a).requests[r])
              == Some(Resolution(a.cancelled, a.elapsed, s.channels[s.requests[r].id]))
  {
  }

  lemma OutcomeStays(s: State, a: Action, r: RequestId)
    requires Enabled(s, a) && r in s.requests && OutcomeOf(s.requests[r]).Some?
    ensures r in Next(s, a).requests
    ensures OutcomeOf(Next(s, a).requests[r]) == OutcomeOf(s.requests[r])
    ensures IdOf(Next(s, a).requests[r]) == IdOf(s.requests[r])
  {
    if Mover(a) != Some(r) {
      OthersStay(s, a, r);
    }
  }

  lemma {:induction false} OutcomeLasts(states: seq<State>, actions: seq<Action>, i: nat, j: nat, r: RequestId)
    requires Run(states, actions) && i <= j < |states|
    requires r in states[i].requests && OutcomeOf(states[i].requests[r]).Some?
    ensures r in states[j].requests && OutcomeOf(states[j].requests[r]) == OutcomeOf(states[i].requests[r])
    decreases j
  {
    if i < j {
      OutcomeLasts(states, actions, i, j - 1, r);
      assert actions[j - 1] in actions;
      OutcomeStays(states[j - 1], actions[j - 1], r);
    }
  }

  // ---- Where an answer comes from ----

  /** A channel is filled by the send that gives the answer. */
  lemma ChannelFills(s: State, a: Action, id: ApprovalId, granted: bool)
    requires Sound(s) && Enabled(s, a)
    requires id in Next(s, a).channels && Next(s, a).channels[id] == Sent(granted)
    requires id !in s.channels || s.channels[id] != Sent(granted)
    ensures a.Send? && Gives(s.calls, a.c, id, granted) && Next(s, a).calls[a.c] == Accepted
    ensures id in s.owner && s.owner[id] in s.requests && ReceiverAlive(s.requests[s.owner[id]])
  {
    if a.Send? {
      assert Next(s, a) == AnswerSent(s, a.c);
      SendFills(s, a.c, id, granted);
    } else {
      OthersFillNothing(s, a, id, granted);
    }
  }

  lemma OthersFillNothing(s: State, a: Action, id: ApprovalId, granted: bool)
    requires Enabled(s, a) && !a.Send? && id in Next(s, a).channels && Next(s, a).channels[id] == Sent(granted)
    ensures id in s.channels && s.channels[id] == Sent(granted)
  {
  }

  lemma SendFills(s: State, c: CallId, id: ApprovalId, granted: bool)
    requires c in s.calls && s.calls[c].Holding?
    requires s.calls[c].id in s.owner && s.owner[s.calls[c].id] in s.requests
    requires id in AnswerSent(s, c).channels && AnswerSent(s, c).channels[id] == Sent(granted)
    requires id !in s.channels || s.channels[id] != Sent(granted)
    ensures Gives(s.calls, c, id, granted) && AnswerSent(s, c).calls[c] == Accepted
    ensures id in s.owner && s.owner[id] in s.requests && ReceiverAlive(s.requests[s.owner[id]])
  {
  }

  lemma FilledAtAStep(states: seq<State>, actions: seq<Action>, k: nat, id: ApprovalId, granted: bool)
    requires Run(states, actions) && k < |actions|
    requires id in states[k + 1].channels && states[k + 1].channels[id] == Sent(granted)
    requires id !in states[k].channels || states[k].channels[id] != Sent(granted)
    ensures Accepts(states, actions, k, id, granted)
    ensures id in states[k].owner && states[k].owner[id] in states[k].requests
    ensures ReceiverAlive(states[k].requests[states[k].owner[id]])
  {
    RunSound(states, actions, k);
    ChannelFills(states[k], actions[k], id, granted);
  }

  lemma {:induction false} FilledByASend(states: seq<State>, actions: seq<Action>, i: nat, id: ApprovalId,
                                         granted: bool)
    returns (k: nat)
    requires Run(states, actions) && i < |states|
    requires id in states[i].channels && states[i].channels[id] == Sent(granted)
    ensures k < i && Accepts(states, actions, k, id, granted)
    ensures id in states[k].owner && states[k].owner[id] in states[k].requests
    ensures ReceiverAlive(states[k].requests[states[k].owner[id]])
  {
    if id in states[i - 1].channels && states[i - 1].channels[id] == Sent(granted) {
      k := FilledByASend(states, actions, i - 1, id, granted);
    } else {
      FilledAtAStep(states, actions, i - 1, id, granted);
      k := i - 1;
    }
  }

  /** One question has one accepted answer. */
  lemma AcceptedOnce(states: seq<State>, actions: seq<Action>, k: nat, k': nat, id: ApprovalId, granted: bool,
                     granted': bool)
    requires Run(states, actions)
    requires Accepts(states, actions, k, id, granted) && Accepts(states, actions, k', id, granted')
    ensures k == k'
  {
    if k < k' {
      SendSettles(states, actions, k, k', id, granted, granted');
    } else if k' < k {
      SendSettles(states, actions, k', k, id, granted', granted);
    }
  }

  lemma SendSettles(states: seq<State>, actions: seq<Action>, k: nat, k': nat, id: ApprovalId, granted: bool,
                    granted': bool)
    requires Run(states, actions) && k < k'
    requires Accepts(states, actions, k, id, granted)
    ensures !Accepts(states, actions, k', id, granted')
  {
    if k' < |actions| {
      AcceptedFills(states, actions, k, id, granted);
      RunPersists(states, actions, k + 1, k');
      RunSound(states, actions, k');
    }
  }

  lemma AcceptedFills(states: seq<State>, actions: seq<Action>, k: nat, id: ApprovalId, granted: bool)
    requires Run(states, actions) && Accepts(states, actions, k, id, granted)
    ensures id in states[k + 1].channels && states[k + 1].channels[id] == Sent(granted)
    ensures Unsettled(states[k].channels, id)
    ensures id in states[k].owner && states[k].owner[id] in states[k].requests
    ensures ReceiverAlive(states[k].requests[states[k].owner[id]])
    ensures IdOf(states[k].requests[states[k].owner[id]]) == Some(id)
  {
    assert actions[k] in actions;
    RunSound(states, actions, k);
    assert states[k + 1] == AnswerSent(states[k], actions[k].c);
  }

  /** Every success on record was one gate's call, made once, while the request still held its
      receiver. */
  lemma SuccessWasSentToALiveRequest(states: seq<State>, actions: seq<Action>, i: nat, n: nat)
    requires Run(states, actions) && i < |states| && n < |states[i].successes|
    ensures var (id, granted) := states[i].successes[n];
            exists k: nat ::
              && k < i && Accepts(states, actions, k, id, granted)
              && id in states[k].owner && states[k].owner[id] in states[k].requests
              && ReceiverAlive(states[k].requests[states[k].owner[id]])
              && forall k', granted' :: Accepts(states, actions, k', id, granted') ==> k' == k
  {
    var (id, granted) := states[i].successes[n];
    RunSound(states, actions, i);
    var k := FilledByASend(states, actions, i, id, granted);
    forall k': nat, granted' | Accepts(states, actions, k', id, granted') ensures k' == k {
      AcceptedOnce(states, actions, k, k', id, granted, granted');
    }
  }

  /** An answer in the channel of a request that waits was sent while it waited. */
  lemma {:induction false} AnsweredWhileWaiting(states: seq<State>, actions: seq<Action>, i: nat, r: RequestId,
                                                id: ApprovalId, granted: bool) returns (k: nat)
    requires Run(states, actions) && i < |states|
    requires At(states[i], r, Waiting(id)) && id in states[i].channels && states[i].channels[id] == Sent(granted)
    ensures k < i && Accepts(states, actions, k, id, granted) && At(states[k], r, Waiting(id))
  {
    WaitedBefore(states, actions, i - 1, r, id);
    if id in states[i - 1].channels && states[i - 1].channels[id] == Sent(granted) {
      k := AnsweredWhileWaiting(states, actions, i - 1, r, id, granted);
    } else {
      FilledAtAStep(states, actions, i - 1, id, granted);
      k := i - 1;
    }
  }

  /** A request that waits on a settled question was waiting on it before. */
  lemma WaitedBefore(states: seq<State>, actions: seq<Action>, i: nat, r: RequestId, id: ApprovalId)
    requires Run(states, actions) && i < |actions|
    requires At(states[i + 1], r, Waiting(id)) && !Unsettled(states[i + 1].channels, id)
    ensures At(states[i], r, Waiting(id))
  {
    if Mover(actions[i]) == Some(r) {
      WaitBegins(states[i], actions[i], r, id);
    } else {
      OthersStay(states[i], actions[i], r);
    }
  }

  lemma {:induction false} AnswerWasSent(states: seq<State>, actions: seq<Action>, i: nat, r: RequestId, granted: bool)
    returns (id: ApprovalId, k: nat)
    requires Run(states, actions) && i < |states|
    requires r in states[i].requests && OutcomeOf(states[i].requests[r]) == Some(Answered(granted))
    ensures IdOf(states[i].requests[r]) == Some(id)
    ensures k < i && Accepts(states, actions, k, id, granted) && At(states[k], r, Waiting(id))
  {
    var before, a := states[i - 1], actions[i - 1];
    assert a in actions;
    RunSound(states, actions, i - 1);
    if r in before.requests && OutcomeOf(before.requests[r]).Some? {
      OutcomeStays(before, a, r);
      id, k := AnswerWasSent(states, actions, i - 1, r, granted);
    } else {
      AnswerIsSelected(before, a, r, granted);
      id := before.requests[r].id;
      k := AnsweredWhileWaiting(states, actions, i - 1, r, id, granted);
    }
  }

  /** An answer becomes an outcome only in a select that finds it sent and nothing else ready. */
  lemma AnswerIsSelected(s: State, a: Action, r: RequestId, granted: bool)
    requires Enabled(s, a) && (r in s.requests ==> OutcomeOf(s.requests[r]).None?)
    requires r in Next(s, a).requests && OutcomeOf(Next(s, a).requests[r]) == Some(Answered(granted))
    ensures a == Select(r, false, false) && r in s.requests && s.requests[r].Waiting?
    ensures s.requests[r].id in s.channels && s.channels[s.requests[r].id] == Sent(granted)
    ensures IdOf(Next(s, a).requests[r]) == Some(s.requests[r].id)
  {
    if Mover(a) != Some(r) {
      OthersStay(s, a, r);
    }
  }

  lemma AnswerIsTallied(states: seq<State>, actions: seq<Action>, i: nat, r: RequestId, granted: bool)
    requires Run(states, actions) && i < |states|
    requires r in states[i].requests && OutcomeOf(states[i].requests[r]) == Some(Answered(granted))
    ensures IdOf(states[i].requests[r]).Some?
    ensures var id := IdOf(states[i].requests[r]).value;
            && id in states[i].owner && states[i].owner[id] == r
            && Successes(states[i].successes, id, granted) == 1
            && Successes(states[i].successes, id, !granted) == 0
  {
    RunSound(states, actions, i);
    var s := states[i];
    assert OutcomeFits(s.channels, s.requests[r]);
    var id := IdOf(s.requests[r]).value;
    var k :| 0 <= k < |s.successes| && s.successes[k].0 == id;
    assert s.successes[k] == (id, granted);
    SuccessesCount(s.successes, id, granted);
  }

  /** Soundness over every interleaving: a request returns an answer only if a gate's call sent that
      answer to its own question while it was waiting, and no other answer to that question was ever
      accepted. Nothing else a request can meet makes it return an answer at all. */
  lemma AnswersAreGiven(states: seq<State>, actions: seq<Action>, i: nat, r: RequestId, granted: bool)
    requires Run(states, actions) && i < |states|
    requires r in states[i].requests && OutcomeOf(states[i].requests[r]) == Some(Answered(granted))
    ensures IdOf(states[i].requests[r]).Some?
    ensures var id := IdOf(states[i].requests[r]).value;
            && id in states[i].owner && states[i].owner[id] == r
            && Successes(states[i].successes, id, granted) == 1
            && Successes(states[i].successes, id, !granted) == 0
    ensures var id := IdOf(states[i].requests[r]).value;
            exists k: nat ::
              && k < i && Accepts(states, actions, k, id, granted) && At(states[k], r, Waiting(id))
              && forall k', granted' :: Accepts(states, actions, k', id, granted') ==> k' == k
  {
    var id, k := AnswerWasSent(states, actions, i, r, granted);
    AnswerIsTallied(states, actions, i, r, granted);
    forall k': nat, granted' | Accepts(states, actions, k', id, granted') ensures k' == k {
      AcceptedOnce(states, actions, k, k', id, granted, granted');
    }
  }

  // ---- What an accepted answer comes to ----

  /** The first step after `k` that moves `r`. */
  ghost predicate MovesNext(actions: seq<Action>, r: RequestId, k: nat, m: nat) {
    && k < m < |actions| && Mover(actions[m]) == Some(r)
    && forall n | k < n < m :: Mover(actions[n]) != Some(r)
  }

  lemma MovesNextOnce(actions: seq<Action>, r: RequestId, k: nat, m: nat, m': nat)
    requires MovesNext(actions, r, k, m) && MovesNext(actions, r, k, m')
    ensures m == m'
  {
  }

  lemma {:induction false} StaysUntilMoved(states: seq<State>, actions: seq<Action>, r: RequestId, i: nat, m: nat)
    requires Run(states, actions) && i <= m < |states| && r in states[i].requests
    requires forall n | i <= n < m :: Mover(actions[n]) != Some(r)
    ensures r in states[m].requests && states[m].requests[r] == states[i].requests[r]
    decreases m
  {
    if i < m {
      StaysUntilMoved(states, actions, r, i, m - 1);
      assert actions[m - 1] in actions;
      OthersStay(states[m - 1], actions[m - 1], r);
    }
  }

  lemma {:induction false} MovesSomewhere(states: seq<State>, actions: seq<Action>, r: RequestId, k: nat, j: nat)
    returns (m: nat)
    requires Run(states, actions) && k < j < |states|
    requires r in states[k + 1].requests
    requires r in states[j].requests ==> states[j].requests[r] != states[k + 1].requests[r]
    ensures m < j && MovesNext(actions, r, k, m)
    decreases j - k
  {
    m := k + 1;
    while m < j && Mover(actions[m]) != Some(r)
      invariant k < m <= j
      invariant forall n | k < n < m :: Mover(actions[n]) != Some(r)
    {
      m := m + 1;
    }
    if m == j {
      StaysUntilMoved(states, actions, r, k + 1, j);
    }
  }

  /** An answer accepted while its request waits is settled by the request's next step: returned by a
      select that finds nothing else ready, and lost to anything else. */
  lemma NextStepSettles(states: seq<State>, actions: seq<Action>, k: nat, m: nat, j: nat, r: RequestId, id: ApprovalId,
                        granted: bool)
    requires Run(states, actions) && k < m < j < |states| && Accepts(states, actions, k, id, granted)
    requires At(states[k], r, Waiting(id)) && MovesNext(actions, r, k, m)
    ensures r in states[j].requests
    ensures OutcomeOf(states[j].requests[r]) == Some(Answered(granted)) <==> actions[m] == Select(r, false, false)
    ensures OutcomeOf(states[j].requests[r]) != Some(Answered(!granted))
  {
    assert actions[k] in actions && actions[m] in actions;
    OthersStay(states[k], actions[k], r);
    StaysUntilMoved(states, actions, r, k + 1, m);
    AcceptedFills(states, actions, k, id, granted);
    RunPersists(states, actions, k + 1, m);
    OutcomeComes(states[m], actions[m], r);
    OutcomeLasts(states, actions, m + 1, j, r);
  }

  /** An answer accepted after its request resolved is never returned. */
  lemma TooLateForTheSelect(states: seq<State>, actions: seq<Action>, k: nat, j: nat, r: RequestId, id: ApprovalId,
                            granted: bool)
    requires Run(states, actions) && k < j < |states| && Accepts(states, actions, k, id, granted)
    requires r in states[k].requests && states[k].requests[r].Resolved? && states[k].requests[r].id == id
    ensures r in states[j].requests && OutcomeOf(states[j].requests[r]).Some?
    ensures !OutcomeOf(states[j].requests[r]).value.Answered?
  {
    RunSound(states, actions, k);
    AcceptedFills(states, actions, k, id, granted);
    assert OutcomeFits(states[k].channels, states[k].requests[r]);
    OutcomeLasts(states, actions, k, j, r);
  }

  /** When an accepted answer is what its request returns: exactly when the request was still waiting as
      it was sent, and the request's next step is a select that finds neither cancellation nor the timer
      ready. It never returns the opposite answer. */
  lemma AcceptedAnswerIsReturnedExactlyWhen(states: seq<State>, actions: seq<Action>, k: nat, j: nat, id: ApprovalId,
                                            granted: bool)
    requires Run(states, actions) && k < j < |states| && Accepts(states, actions, k, id, granted)
    requires id in states[j].owner && states[j].owner[id] in states[j].requests
    requires states[j].requests[states[j].owner[id]].Ended?
    ensures var r := states[j].owner[id];
            && (OutcomeOf(states[j].requests[r]) == Some(Answered(granted))
                <==> At(states[k], r, Waiting(id)) && exists m: nat :: m < j && MovesNext(actions, r, k, m)
                                                                  && actions[m] == Select(r, false, false))
            && OutcomeOf(states[j].requests[r]) != Some(Answered(!granted))
  {
    var r := states[j].owner[id];
    AcceptedFills(states, actions, k, id, granted);
    OwnerLasts(states, actions, k, j, id);
    assert actions[k] in actions;
    OthersStay(states[k], actions[k], r);
    if At(states[k], r, Waiting(id)) {
      var m := MovesSomewhere(states, actions, r, k, j);
      NextStepSettles(states, actions, k, m, j, r, id, granted);
      forall m': nat | m' < j && MovesNext(actions, r, k, m') ensures m' == m {
        MovesNextOnce(actions, r, k, m, m');
      }
    } else {
      TooLateForTheSelect(states, actions, k, j, r, id, granted);
    }
  }

  lemma {:induction false} OwnerLasts(states: seq<State>, actions: seq<Action>, i: nat, j: nat, id: ApprovalId)
    requires Run(states, actions) && i <= j < |states| && id in states[i].owner
    ensures id in states[j].owner && states[j].owner[id] == states[i].owner[id]
    decreases j
  {
    if i < j {
      OwnerLasts(states, actions, i, j - 1, id);
      OwnerStep(states, actions, j - 1, id);
    }
  }

  lemma OwnerStep(states: seq<State>, actions: seq<Action>, i: nat, id: ApprovalId)
    requires Run(states, actions) && i < |actions| && id in states[i].owner
    ensures id in states[i + 1].owner && states[i + 1].owner[id] == states[i].owner[id]
  {
    RunSound(states, actions, i);
    OwnerStays(states[i], actions[i], id);
  }

  lemma OwnerStays(s: State, a: Action, id: ApprovalId)
    requires Sound(s) && Enabled(s, a) && id in s.owner
    ensures id in Next(s, a).owner && Next(s, a).owner[id] == s.owner[id]
  {
    assert id < s.nextId;
  }

  // ---- Accepted, and refused all the same ----

  predicate NoSelect(actions: seq<Action>) {
    forall i | 0 <= i < |actions| :: !actions[i].Select?
  }

  lemma RunExtends(states: seq<State>, actions: seq<Action>, a: Action)
    requires Run(states, actions) && Enabled(states[|actions|], a)
    ensures Run(states + [Next(states[|actions|], a)], actions + [a])
  {
    var states', actions' := states + [Next(states[|actions|], a)], actions + [a];
    forall i | 0 <= i < |actions'|
      ensures Enabled(states'[i], actions'[i]) && states'[i + 1] == Next(states'[i], actions'[i])
    {
      if i < |actions| { assert actions'[i] == actions[i]; }
    }
  }

  /** A run can be taken on by one enabled action. */
  lemma OneMore(states: seq<State>, actions: seq<Action>, a: Action)
    returns (states': seq<State>, actions': seq<Action>)
    requires Run(states, actions) && Enabled(states[|actions|], a)
    ensures Run(states', actions') && states <= states' && actions' == actions + [a]
    ensures states'[|actions'|] == Next(states[|actions|], a)
    ensures NoSelect(actions) && !a.Select? ==> NoSelect(actions')
  {
    RunExtends(states, actions, a);
    states', actions' := states + [Next(states[|actions|], a)], actions + [a];
  }

  lemma OneQuestionHeard() returns (states: seq<State>, actions: seq<Action>)
    ensures Run(states, actions) && NoSelect(actions)
    ensures states[|actions|] == State(1, Queue(map[], false, 1), {0}, map[0 := Heard], map[], map[], map[], {}, [], 0)
  {
    states, actions := [Initial(1)], [];
    states, actions := OneMore(states, actions, Attach(0));
    states, actions := OneMore(states, actions, Begin(0));
    states, actions := OneMore(states, actions, CheckClosed(0));
    states, actions := OneMore(states, actions, CheckCancelled(0, false));
    states, actions := OneMore(states, actions, CheckGates(0));
  }

  lemma OneQuestionParked() returns (states: seq<State>, actions: seq<Action>)
    ensures Run(states, actions) && NoSelect(actions)
    ensures states[|actions|] == State(1, Queue(map[0 := PendingApproval(0, 0, 10)], false, 1), {0},
                                       map[0 := Waiting(0)], map[0 := 0], map[0 := Unsent], map[], {}, [], 1)
  {
    states, actions := OneQuestionHeard();
    states, actions := OneMore(states, actions, ReadClock(0, 0, 10, None));
    assert states[|actions|].requests == map[0 := Timed(0, 10)];
    states, actions := OneMore(states, actions, Park(0));
  }

  lemma OneQuestionTaken() returns (states: seq<State>, actions: seq<Action>)
    ensures Run(states, actions) && NoSelect(actions)
    ensures states[|actions|] == State(1, Queue(map[], false, 1), {0}, map[0 := Waiting(0)], map[0 := 0],
                                       map[0 := Unsent], map[0 := Holding(0, 0, true)], {}, [], 1)
  {
    states, actions := OneQuestionParked();
    states, actions := OneMore(states, actions, TakeWaiter(0, 0, 0, true));
    assert states[|actions|].calls == map[0 := Holding(0, 0, true)] && states[|actions|].queue.waiting == map[];
  }

  lemma OneQuestionAnswered() returns (states: seq<State>, actions: seq<Action>)
    ensures Run(states, actions) && NoSelect(actions)
    ensures states[|actions|] == State(1, Queue(map[], false, 1), {0}, map[0 := Waiting(0)], map[0 := 0],
                                       map[0 := Sent(true)], map[0 := Accepted], {}, [(0, true)], 1)
  {
    states, actions := OneQuestionTaken();
    states, actions := OneMore(states, actions, Send(0));
  }

  /** A gate may be told its approval succeeded while the request is refused: cancelled at the poll that
      would have returned the answer. */
  lemma AcceptedThenCancelled() returns (states: seq<State>, actions: seq<Action>)
    ensures Run(states, actions)
    ensures states[|actions|].successes == [(0, true)] && states[|actions|].calls == map[0 := Accepted]
    ensures states[|actions|].requests == map[0 := Ended(Some(0), Refused(Cancelled))]
  {
    states, actions := OneQuestionAnswered();
    states, actions := OneMore(states, actions, Select(0, true, false));
    assert states[|actions|].requests == map[0 := Resolved(0, Refused(Cancelled))];
    states, actions := OneMore(states, actions, DropReceiver(0));
    assert states[|actions|].requests == map[0 := Leaving(0, Refused(Cancelled))];
    states, actions := OneMore(states, actions, DropGuard(0));
  }

  /** Or dropped by its caller before it is polled again, with neither cancellation nor the timer ready. */
  lemma AcceptedThenAbandoned() returns (states: seq<State>, actions: seq<Action>)
    ensures Run(states, actions) && NoSelect(actions)
    ensures states[|actions|].successes == [(0, true)] && states[|actions|].calls == map[0 := Accepted]
    ensures states[|actions|].requests == map[0 := Ended(Some(0), Refused(Abandoned))]
  {
    states, actions := OneQuestionAnswered();
    states, actions := OneMore(states, actions, DropFuture(0));
    assert states[|actions|].requests == map[0 := Leaving(0, Refused(Abandoned))];
    states, actions := OneMore(states, actions, DropGuard(0));
  }

  lemma TimedOutThenAnswered() returns (states: seq<State>, actions: seq<Action>)
    ensures Run(states, actions)
    ensures states[|actions|] == State(1, Queue(map[], false, 1), {0}, map[0 := Resolved(0, Refused(Timeout))],
                                       map[0 := 0], map[0 := Sent(true)], map[0 := Accepted], {}, [(0, true)], 1)
  {
    states, actions := OneQuestionTaken();
    states, actions := OneMore(states, actions, Select(0, false, true));
    assert states[|actions|].requests == map[0 := Resolved(0, Refused(Timeout))];
    states, actions := OneMore(states, actions, Send(0));
    assert states[|actions|].channels == map[0 := Sent(true)] && states[|actions|].calls == map[0 := Accepted];
  }

  /** Or timed out between the gate's taking the question and its sending the answer: the request still
      holds its receiver, so the send is accepted after the select has resolved. */
  lemma AcceptedAfterTheTimer() returns (states: seq<State>, actions: seq<Action>)
    ensures Run(states, actions)
    ensures states[|actions|].successes == [(0, true)] && states[|actions|].calls == map[0 := Accepted]
    ensures states[|actions|].requests == map[0 := Ended(Some(0), Refused(Timeout))]
  {
    states, actions := TimedOutThenAnswered();
    states, actions := OneMore(states, actions, DropReceiver(0));
    assert states[|actions|].requests == map[0 := Leaving(0, Refused(Timeout))];
    states, actions := OneMore(states, actions, DropGuard(0));
  }
}
