/** Messages, and what it means for a transcript to answer every tool call it asks for. */
module Conversation {
  import opened Wrappers
  import opened JsonValues

  datatype Role = System | User | Assistant | Tool

  datatype ToolCall = ToolCall(callId: string, name: string, arguments: Json)

  datatype ContentPart =
    | Text(text: string)
    | Blob(mimeType: string, data: string)
    | Call(call: ToolCall)
    | Outcome(callId: string, content: Json, isError: bool)
    | Other(value: Json)

  datatype Message = Message(role: Role, content: seq<ContentPart>)

  /** The tool calls among `parts`, in order. */
  function CallsIn(parts: seq<ContentPart>): seq<ToolCall> {
    if parts == [] then []
    else (if parts[0].Call? then [parts[0].call] else []) + CallsIn(parts[1..])
  }

  lemma {:induction false} CallsInSnoc(parts: seq<ContentPart>, last: ContentPart)
    ensures CallsIn(parts + [last]) == CallsIn(parts) + (if last.Call? then [last.call] else [])
  {
    if parts != [] {
      assert (parts + [last])[1..] == parts[1..] + [last];
      CallsInSnoc(parts[1..], last);
    }
  }

  function CallIds(calls: seq<ToolCall>): (ids: seq<string>)
    ensures |ids| == |calls| && forall i :: 0 <= i < |calls| ==> ids[i] == calls[i].callId
  {
    seq(|calls|, i requires 0 <= i < |calls| => calls[i].callId)
  }

  /** The ids a message asks for. Only an assistant turn can ask. */
  function Asked(message: Message): seq<string> {
    if message.role == Assistant then CallIds(CallsIn(message.content)) else []
  }

  /** What a message does to the calls outstanding: it asks for some (perhaps none), or answers one.
      A tool message that is not a single result is stray. */
  datatype Move = Asks(ids: seq<string>) | Answer(id: string) | Stray

  function MoveOf(message: Message): Move {
    if message.role != Tool then Asks(Asked(message))
    else if |message.content| == 1 && message.content[0].Outcome? then Answer(message.content[0].callId)
    else Stray
  }

  function Moves(log: seq<Message>): (moves: seq<Move>)
    ensures |moves| == |log| && forall i :: 0 <= i < |log| ==> moves[i] == MoveOf(log[i])
  {
    seq(|log|, i requires 0 <= i < |log| => MoveOf(log[i]))
  }

  // ---- Reading a transcript left to right ----

  /** What is left unanswered once `turn` follows a transcript with `open` unanswered, or nothing when
      it may not follow. */
  function Follow(open: seq<string>, turn: Move): Option<seq<string>> {
    match turn
    case Asks(ids) => if open == [] then Some(ids) else None
    case Answer(id) => if open != [] && open[0] == id then Some(open[1..]) else None
    case Stray => None
  }

  function Scan(moves: seq<Move>): Option<seq<string>> {
    if moves == [] then Some([])
    else
      match Scan(moves[..|moves| - 1])
      case None => None
      case Some(open) => Follow(open, moves[|moves| - 1])
  }

  /** The calls a transcript leaves unanswered, or nothing when it is malformed. */
  function Unanswered(log: seq<Message>): Option<seq<string>> {
    Scan(Moves(log))
  }

  lemma UnansweredExtends(log: seq<Message>, message: Message, open: seq<string>)
    requires Unanswered(log) == Some(open)
    ensures Unanswered(log + [message]) == Follow(open, MoveOf(message))
  {
    assert Moves(log + [message]) == Moves(log) + [MoveOf(message)];
    assert (Moves(log) + [MoveOf(message)])[..|log|] == Moves(log);
  }

  // ---- What that means, position by position ----

  predicate IsAnswer(turn: Move, id: string) {
    turn == Answer(id)
  }

  ghost predicate AskedBefore(moves: seq<Move>, i: int, k: int) {
    0 <= i < k < |moves| && moves[i].Asks? && k <= i + |moves[i].ids|
  }

  /** Each call so far due an answer has it, in its place, and every tool message is such an answer. */
  ghost predicate AnsweredSoFar(moves: seq<Move>) {
    && (forall i, j | 0 <= i < |moves| && moves[i].Asks? && 0 <= j < |moves[i].ids| && i + 1 + j < |moves| ::
          IsAnswer(moves[i + 1 + j], moves[i].ids[j]))
    && (forall k | 0 <= k < |moves| && !moves[k].Asks? :: exists i :: AskedBefore(moves, i, k))
  }

  /** Every asking message is followed at once by exactly one answer to each call it makes, in the
      order it made them, and every tool message is such an answer. */
  ghost predicate EveryCallAnswered(log: seq<Message>) {
    var moves := Moves(log);
    && AnsweredSoFar(moves)
    && forall i | 0 <= i < |moves| && moves[i].Asks? :: i + |moves[i].ids| < |moves|
  }

  /** The position of the last message that asks for anything, or -1. */
  function LastAsking(moves: seq<Move>): (i: int)
    ensures -1 <= i < |moves|
    ensures i >= 0 ==> moves[i].Asks? && moves[i].ids != []
    ensures forall k | i < k < |moves| && moves[k].Asks? :: moves[k].ids == []
  {
    if moves == [] then -1
    else
      var last := |moves| - 1;
      if moves[last].Asks? && moves[last].ids != [] then last else LastAsking(moves[..last])
  }

  /** What the last asking message still waits for, by counting messages since. */
  function StillOpen(moves: seq<Move>): seq<string> {
    var i := LastAsking(moves);
    if i < 0 then []
    else
      var since := |moves| - 1 - i;
      if since < |moves[i].ids| then moves[i].ids[since..] else []
  }

  /** The scan accepts exactly the transcripts in which every answer is in place, and what it has
      open is what the last asking message waits for. */
  lemma {:induction false} ScanMeansInPlace(moves: seq<Move>)
    ensures Scan(moves).Some? <==> AnsweredSoFar(moves)
    ensures Scan(moves).Some? ==> Scan(moves).value == StillOpen(moves)
  {
    if moves != [] {
      var front, last := moves[..|moves| - 1], moves[|moves| - 1];
      assert moves == front + [last];
      ScanMeansInPlace(front);
      LastInPlace(front, last);
      OpenAfter(front, last);
    }
  }

  /** A message fits at the end exactly when the scan lets it follow. */
  lemma LastInPlace(front: seq<Move>, last: Move)
    ensures AnsweredSoFar(front + [last]) <==> AnsweredSoFar(front) && Follow(StillOpen(front), last).Some?
  {
    if AnsweredSoFar(front + [last]) {
      CutInPlace(front, last);
      LastFollows(front, last);
    }
    if AnsweredSoFar(front) && Follow(StillOpen(front), last).Some? {
      FrontStays(front, last);
    }
  }

  lemma CutInPlace(front: seq<Move>, last: Move)
    requires AnsweredSoFar(front + [last])
    ensures AnsweredSoFar(front)
  {
    var moves := front + [last];
    forall i, j | 0 <= i < |front| && front[i].Asks? && 0 <= j < |front[i].ids| && i + 1 + j < |front|
      ensures IsAnswer(front[i + 1 + j], front[i].ids[j])
    {
      assert moves[i] == front[i] && IsAnswer(moves[i + 1 + j], moves[i].ids[j]);
    }
    forall k | 0 <= k < |front| && !front[k].Asks? ensures exists i :: AskedBefore(front, i, k) {
      assert moves[k] == front[k];
      var i :| AskedBefore(moves, i, k);
      assert AskedBefore(front, i, k);
    }
  }

  /** Between two asking messages lies every answer the first waits for. */
  lemma AskingAfterAnswers(moves: seq<Move>, i: int, a: int)
    requires AnsweredSoFar(moves) && 0 <= i < a < |moves| && moves[i].Asks? && moves[a].Asks?
    ensures i + |moves[i].ids| < a
  {
    if a <= i + |moves[i].ids| {
      AnswerInPlace(moves, i, a - i - 1);
    }
  }

  lemma AnswerInPlace(moves: seq<Move>, i: int, j: int)
    requires AnsweredSoFar(moves) && 0 <= i < |moves| && moves[i].Asks?
    requires 0 <= j < |moves[i].ids| && i + 1 + j < |moves|
    ensures moves[i + 1 + j].Answer?
  {
    assert IsAnswer(moves[i + 1 + j], moves[i].ids[j]);
  }

  lemma LastFollows(front: seq<Move>, last: Move)
    requires AnsweredSoFar(front + [last])
    ensures Follow(StillOpen(front), last).Some?
  {
    var moves := front + [last];
    var a := LastAsking(front);
    if StillOpen(front) != [] {
      var since := |front| - 1 - a;
      assert moves[a] == front[a];
      assert IsAnswer(moves[a + 1 + since], moves[a].ids[since]);
    } else if !last.Asks? {
      assert moves[|front|] == last;
      var i :| AskedBefore(moves, i, |front|);
      assert front[i] == moves[i] && i <= a;
      if i < a {
        assert front[a] == moves[a];
        AskingAfterAnswers(moves, i, a);
      }
    }
  }

  /** An answer due in place is either among the earlier ones, or is the last. */
  lemma AnswerStays(front: seq<Move>, last: Move, i: int, j: int)
    requires AnsweredSoFar(front) && Follow(StillOpen(front), last).Some?
    requires 0 <= i < |front| && front[i].Asks? && 0 <= j < |front[i].ids| && i + 1 + j <= |front|
    ensures IsAnswer((front + [last])[i + 1 + j], front[i].ids[j])
  {
    var a := LastAsking(front);
    assert i <= a;
    if i + 1 + j < |front| {
      assert IsAnswer(front[i + 1 + j], front[i].ids[j]);
    } else if i < a {
      AskingAfterAnswers(front, i, a);
    }
  }

  lemma AskedStays(front: seq<Move>, last: Move, k: int)
    requires AnsweredSoFar(front) && Follow(StillOpen(front), last).Some?
    requires 0 <= k <= |front| && !(front + [last])[k].Asks?
    ensures exists i :: AskedBefore(front + [last], i, k)
  {
    if k < |front| {
      var i :| AskedBefore(front, i, k);
      assert AskedBefore(front + [last], i, k);
    } else {
      assert AskedBefore(front + [last], LastAsking(front), k);
    }
  }

  lemma FrontStays(front: seq<Move>, last: Move)
    requires AnsweredSoFar(front) && Follow(StillOpen(front), last).Some?
    ensures AnsweredSoFar(front + [last])
  {
    var moves := front + [last];
    forall i, j | 0 <= i < |moves| && moves[i].Asks? && 0 <= j < |moves[i].ids| && i + 1 + j < |moves|
      ensures IsAnswer(moves[i + 1 + j], moves[i].ids[j])
    {
      AnswerStays(front, last, i, j);
    }
    forall k | 0 <= k < |moves| && !moves[k].Asks? ensures exists i :: AskedBefore(moves, i, k) {
      AskedStays(front, last, k);
    }
  }

  lemma OpenAfter(front: seq<Move>, last: Move)
    ensures Follow(StillOpen(front), last).Some?
        ==> Follow(StillOpen(front), last).value == StillOpen(front + [last])
  {
    var moves := front + [last];
    assert moves[..|moves| - 1] == front;
    var a := LastAsking(front);
    assert a >= 0 ==> moves[a] == front[a];
  }

  /** A transcript with nothing open is one in which every call is answered, and the other way round. */
  lemma NothingOpenMeansAnswered(log: seq<Message>)
    ensures Unanswered(log) == Some([]) <==> EveryCallAnswered(log)
  {
    var moves := Moves(log);
    ScanMeansInPlace(moves);
    var a := LastAsking(moves);
    if Unanswered(log) == Some([]) {
      forall i | 0 <= i < |moves| && moves[i].Asks? ensures i + |moves[i].ids| < |moves| {
        if i < a { AskingAfterAnswers(moves, i, a); }
      }
    }
  }
}
