/** What the broker's closing leaves: no question it drains is ever answered, and a question a gate had
    already taken can be. */
module ApprovalClosing {
  import opened Wrappers
  import opened Approval
  import opened ApprovalAnswers

  /** The broker closes at step `c`. */
  predicate ClosesAt(actions: seq<Action>, c: nat) {
    c < |actions| && actions[c] == CloseBroker
  }

  // ---- No waiter is taken after the close ----

  lemma StaysClosed(states: seq<State>, actions: seq<Action>, c: nat, j: nat)
    requires Run(states, actions) && ClosesAt(actions, c) && c < j < |states|
    ensures states[j].queue.closed && states[j].queue.waiting == map[]
  {
    assert states[c + 1] == BrokerClosed(states[c]);
    QueueStaysSound(states, actions, c + 1, j);
  }

  lemma HeldBefore(s: State, a: Action, call: CallId, id: ApprovalId, granted: bool)
    requires Enabled(s, a) && (a.TakeWaiter? ==> s.queue.waiting == map[])
    requires Gives(Next(s, a).calls, call, id, granted)
    ensures Gives(s.calls, call, id, granted)
  {
  }

  lemma {:induction false} HeldAtTheClose(states: seq<State>, actions: seq<Action>, c: nat, k: nat, call: CallId,
                                          id: ApprovalId, granted: bool)
    requires Run(states, actions) && ClosesAt(actions, c) && c < k < |states|
    requires Gives(states[k].calls, call, id, granted)
    ensures Gives(states[c].calls, call, id, granted)
    decreases k
  {
    assert actions[k - 1] in actions;
    if k - 1 > c {
      StaysClosed(states, actions, c, k - 1);
      HeldBefore(states[k - 1], actions[k - 1], call, id, granted);
      HeldAtTheClose(states, actions, c, k - 1, call, id, granted);
    } else {
      HeldBefore(states[c], actions[c], call, id, granted);
    }
  }

  /** An answer accepted after the close is one a gate's call held as the broker closed. */
  lemma AcceptedAfterTheClose(states: seq<State>, actions: seq<Action>, c: nat, k: nat, id: ApprovalId, granted: bool)
    requires Run(states, actions) && ClosesAt(actions, c) && c < k && Accepts(states, actions, k, id, granted)
    ensures Gives(states[c].calls, actions[k].c, id, granted) && id !in states[c].queue.waiting
  {
    HeldAtTheClose(states, actions, c, k, actions[k].c, id, granted);
    RunSound(states, actions, c);
  }

  /** An answer to a question still unsettled at `c` is accepted no earlier. */
  lemma AcceptedNoEarlier(states: seq<State>, actions: seq<Action>, c: nat, k: nat, id: ApprovalId, granted: bool)
    requires Run(states, actions) && c < |states| && Unsettled(states[c].channels, id)
    requires Accepts(states, actions, k, id, granted)
    ensures c <= k
  {
    if k < c {
      AcceptedFills(states, actions, k, id, granted);
      RunPersists(states, actions, k + 1, c);
    }
  }

  // ---- What is drained ----

  /** No answer to a question the close drains is ever accepted, before it or after, and no request
      returns one. */
  lemma DrainedIsNeverAnswered(states: seq<State>, actions: seq<Action>, c: nat, id: ApprovalId, granted: bool)
    requires Run(states, actions) && ClosesAt(actions, c) && id in states[c].queue.waiting
    ensures forall k: nat :: !Accepts(states, actions, k, id, granted)
    ensures forall i, r | 0 <= i < |states| && r in states[i].requests && IdOf(states[i].requests[r]) == Some(id) ::
              OutcomeOf(states[i].requests[r]) != Some(Answered(granted))
  {
    RunSound(states, actions, c);
    forall k: nat | Accepts(states, actions, k, id, granted) ensures false {
      AcceptedNoEarlier(states, actions, c, k, id, granted);
      AcceptedAfterTheClose(states, actions, c, k, id, granted);
    }
    forall i, r | 0 <= i < |states| && r in states[i].requests && IdOf(states[i].requests[r]) == Some(id)
      ensures OutcomeOf(states[i].requests[r]) != Some(Answered(granted))
    {
      if OutcomeOf(states[i].requests[r]) == Some(Answered(granted)) {
        var asked, k := AnswerWasSent(states, actions, i, r, granted);
      }
    }
  }

  /** The question's sender is among those to be dropped, or has been. */
  ghost predicate Released(s: State, id: ApprovalId) {
    id in s.drained || (id in s.channels && s.channels[id] == SenderGone)
  }

  lemma StaysReleased(s: State, a: Action, id: ApprovalId)
    requires Sound(s) && Enabled(s, a) && Released(s, id)
    ensures Released(Next(s, a), id)
  {
    if id in s.drained {
      DrainedLeavesDropped(s, a, id);
    } else {
      NextPersists(s, a);
    }
  }

  lemma DrainedLeavesDropped(s: State, a: Action, id: ApprovalId)
    requires Enabled(s, a) && id in s.drained
    ensures if a == DropDrained(id) then id in Next(s, a).channels && Next(s, a).channels[id] == SenderGone
            else id in Next(s, a).drained
  {
  }

  lemma StepReleased(states: seq<State>, actions: seq<Action>, i: nat, id: ApprovalId)
    requires Run(states, actions) && i < |actions| && Released(states[i], id)
    ensures Released(states[i + 1], id)
  {
    RunSound(states, actions, i);
    StaysReleased(states[i], actions[i], id);
  }

  /** Every question the close drains has lost its sender, or has it dropped next thing: so its request, if it
      still waits, is told that its channel closed, and none is left waiting for an answer nobody can give. */
  lemma {:induction false} DrainedIsReleased(states: seq<State>, actions: seq<Action>, c: nat, j: nat, id: ApprovalId)
    requires Run(states, actions) && ClosesAt(actions, c) && id in states[c].queue.waiting && c < j < |states|
    ensures || (id in states[j].drained && Enabled(states[j], DropDrained(id)))
            || (id in states[j].channels && states[j].channels[id] == SenderGone)
    decreases j
  {
    if j == c + 1 {
      assert states[j] == BrokerClosed(states[c]);
    } else {
      DrainedIsReleased(states, actions, c, j - 1, id);
      StepReleased(states, actions, j - 1, id);
    }
  }

  // ---- What is not ----

  lemma AskedStays(s: State, a: Action, r: RequestId)
    requires Enabled(s, a) && r in s.requests && IdOf(s.requests[r]).Some?
    ensures r in Next(s, a).requests && IdOf(Next(s, a).requests[r]) == IdOf(s.requests[r])
  {
    if Mover(a) != Some(r) {
      OthersStay(s, a, r);
    }
  }

  lemma {:induction false} AskedLasts(states: seq<State>, actions: seq<Action>, i: nat, j: nat, r: RequestId)
    requires Run(states, actions) && i <= j < |states|
    requires r in states[i].requests && IdOf(states[i].requests[r]).Some?
    ensures r in states[j].requests && IdOf(states[j].requests[r]) == IdOf(states[i].requests[r])
    decreases j
  {
    if i < j {
      AskedLasts(states, actions, i, j - 1, r);
      assert actions[j - 1] in actions;
      AskedStays(states[j - 1], actions[j - 1], r);
    }
  }

  /** The run goes on to close the broker next, and to return this answer after that. */
  ghost predicate GoesOnToAnswer(states: seq<State>, actions: seq<Action>, states': seq<State>, actions': seq<Action>,
                                 r: RequestId, granted: bool) {
    && Run(states', actions') && states <= states' && actions + [CloseBroker] <= actions'
    && r in states'[|actions'|].requests
    && OutcomeOf(states'[|actions'|].requests[r]) == Some(Answered(granted))
  }

  ghost predicate AnswerableOnceClosed(states: seq<State>, actions: seq<Action>, r: RequestId, granted: bool) {
    exists states': seq<State>, actions': seq<Action> :: GoesOnToAnswer(states, actions, states', actions', r, granted)
  }

  /** A gate's call has taken the question, to answer it so, and has not sent yet. */
  ghost predicate Taken(calls: map<CallId, Call>, id: ApprovalId, granted: bool) {
    exists call :: Gives(calls, call, id, granted)
  }

  lemma AnsweredWasTaken(states: seq<State>, actions: seq<Action>, states': seq<State>, actions': seq<Action>,
                         r: RequestId, id: ApprovalId, granted: bool)
    requires Run(states, actions) && At(states[|actions|], r, Waiting(id))
    requires Unsettled(states[|actions|].channels, id)
    requires GoesOnToAnswer(states, actions, states', actions', r, granted)
    ensures Taken(states[|actions|].calls, id, granted)
  {
    var c := |actions|;
    assert states'[c] == states[c] && ClosesAt(actions', c);
    var asked, k := AnswerWasSent(states', actions', |actions'|, r, granted);
    AskedLasts(states', actions', c, |actions'|, r);
    AcceptedNoEarlier(states', actions', c, k, id, granted);
    AcceptedAfterTheClose(states', actions', c, k, id, granted);
  }

  /** A gate's call holds the question its request waits on. */
  ghost predicate Answering(s: State, call: CallId, r: RequestId, id: ApprovalId, granted: bool) {
    Gives(s.calls, call, id, granted) && At(s, r, Waiting(id)) && id in s.owner && s.owner[id] == r
  }

  lemma ClosesOn(s: State, call: CallId, r: RequestId, id: ApprovalId, granted: bool)
    requires Answering(s, call, r, id, granted)
    ensures Answering(Next(s, CloseBroker), call, r, id, granted)
  {
  }

  ghost predicate Answerable(s: State, r: RequestId, id: ApprovalId, granted: bool) {
    At(s, r, Waiting(id)) && id in s.channels && s.channels[id] == Sent(granted)
  }

  lemma SendsOn(s: State, call: CallId, r: RequestId, id: ApprovalId, granted: bool)
    requires Answering(s, call, r, id, granted)
    ensures Enabled(s, Send(call)) && Answerable(Next(s, Send(call)), r, id, granted)
  {
  }

  lemma SelectsOn(s: State, r: RequestId, id: ApprovalId, granted: bool)
    requires Answerable(s, r, id, granted)
    ensures Enabled(s, Select(r, false, false))
    ensures At(Next(s, Select(r, false, false)), r, Resolved(id, Answered(granted)))
  {
  }

  lemma Sends(states: seq<State>, actions: seq<Action>, call: CallId, r: RequestId, id: ApprovalId, granted: bool)
    returns (states': seq<State>, actions': seq<Action>)
    requires Run(states, actions) && Answering(states[|actions|], call, r, id, granted)
    ensures Run(states', actions') && states <= states' && actions <= actions'
    ensures Answerable(states'[|actions'|], r, id, granted)
  {
    SendsOn(states[|actions|], call, r, id, granted);
    states', actions' := OneMore(states, actions, Send(call));
  }

  lemma Closes(states: seq<State>, actions: seq<Action>, call: CallId, r: RequestId, id: ApprovalId, granted: bool)
    returns (states': seq<State>, actions': seq<Action>)
    requires Run(states, actions) && Answering(states[|actions|], call, r, id, granted)
    ensures Run(states', actions') && states <= states' && actions + [CloseBroker] == actions'
    ensures Answering(states'[|actions'|], call, r, id, granted)
  {
    ClosesOn(states[|actions|], call, r, id, granted);
    states', actions' := OneMore(states, actions, CloseBroker);
  }

  /** Closed, sent and selected. */
  lemma TakenIsAnswered(states: seq<State>, actions: seq<Action>, call: CallId, r: RequestId, id: ApprovalId,
                        granted: bool)
    returns (states': seq<State>, actions': seq<Action>)
    requires Run(states, actions) && Answering(states[|actions|], call, r, id, granted)
    ensures GoesOnToAnswer(states, actions, states', actions', r, granted)
  {
    states', actions' := Closes(states, actions, call, r, id, granted);
    states', actions' := Sends(states', actions', call, r, id, granted);
    SelectsOn(states'[|actions'|], r, id, granted);
    states', actions' := OneMore(states', actions', Select(r, false, false));
  }

  /** A question whose answer would arrive after the system stopped is meant certainly not to be granted.
      If the broker closes while a request waits, with nothing sent to it yet, the request can still
      return an answer exactly when a gate's call had taken its question to answer it so. */
  lemma AnswerableOnceClosedExactlyWhen(states: seq<State>, actions: seq<Action>, r: RequestId, id: ApprovalId,
                                        granted: bool)
    requires Run(states, actions) && At(states[|actions|], r, Waiting(id))
    requires Unsettled(states[|actions|].channels, id)
    ensures AnswerableOnceClosed(states, actions, r, granted) <==> Taken(states[|actions|].calls, id, granted)
  {
    if AnswerableOnceClosed(states, actions, r, granted) {
      var states': seq<State>, actions': seq<Action> :| GoesOnToAnswer(states, actions, states', actions', r, granted);
      AnsweredWasTaken(states, actions, states', actions', r, id, granted);
    }
    if Taken(states[|actions|].calls, id, granted) {
      var call :| Gives(states[|actions|].calls, call, id, granted);
      RunSound(states, actions, |actions|);
      var states', actions' := TakenIsAnswered(states, actions, call, r, id, granted);
    }
  }

  /** A run that grants a request after the broker closed. */
  lemma GrantedAfterTheClose() returns (states: seq<State>, actions: seq<Action>, c: nat)
    ensures Run(states, actions) && ClosesAt(actions, c)
    ensures At(states[c], 0, Waiting(0)) && Unsettled(states[c].channels, 0)
    ensures 0 in states[|actions|].requests
    ensures OutcomeOf(states[|actions|].requests[0]) == Some(Answered(true))
  {
    var before, taken := OneQuestionTaken();
    c := |taken|;
    states, actions := TakenIsAnswered(before, taken, 0, 0, 0, true);
    assert states[c] == before[c] && actions[c] == (taken + [CloseBroker])[c];
  }
}
