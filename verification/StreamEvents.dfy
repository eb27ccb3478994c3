/** The streaming decoder's event machine: what one event says, and what it does to the blocks being
    reassembled. JSON text is left abstract: a codec says what parses to what. */
module StreamEvents {
  import opened Wrappers
  import opened JsonValues
  import opened Conversation

  /** The most one tool call's arguments may occupy, in bytes. */
  const MAX_TOOL_INPUT_BYTES: nat := 4 * 1024 * 1024

  datatype Codec = Codec(parse: string -> Option<Json>)

  datatype FinishReason = Stop | Length | ToolCalls | Filtered

  datatype Usage = Usage(inputTokens: nat, outputTokens: nat)

  datatype Chunk =
    | Delta(text: string)
    | CallChunk(call: ToolCall)
    | Done(finish: FinishReason, usage: Option<Usage>)

  datatype Error =
    | NotJson
    | NoIndex
    | NoId
    | NoName
    | NeverOpened
    | ArgumentsTooLong
    | BadArguments(name: string)
    | ApiError(kind: string, message: string)
    | EventTooLarge
    | Cancelled
    | TimedOut
    | Transport

  datatype PendingCall = PendingCall(id: string, name: string, arguments: string)

  datatype StreamState = StreamState(
    pending: map<nat, PendingCall>,
    inputTokens: nat,
    outputTokens: nat,
    stopReason: Option<string>)

  const START: StreamState := StreamState(map[], 0, 0, None)

  // ---- Text ----

  /** Bytes of a character in UTF-8. */
  function Utf8Width(c: char): nat {
    if c as int < 0x80 then 1 else if c as int < 0x800 then 2 else if c as int < 0x1_0000 then 3 else 4
  }

  function Utf8Len(text: string): nat {
    if text == "" then 0 else Utf8Width(text[0]) + Utf8Len(text[1..])
  }

  lemma {:induction false} Utf8LenJoin(a: string, b: string)
    ensures Utf8Len(a + b) == Utf8Len(a) + Utf8Len(b)
  {
    if a == "" {
      assert a + b == b;
    } else {
      assert (a + b)[1..] == a[1..] + b;
      Utf8LenJoin(a[1..], b);
    }
  }

  /** The White_Space property of Unicode. */
  predicate IsWhitespace(c: char) {
    var n := c as int;
    || 0x9 <= n <= 0xD || n == 0x20 || n == 0x85 || n == 0xA0 || n == 0x1680
    || 0x2000 <= n <= 0x200A || n == 0x2028 || n == 0x2029 || n == 0x202F || n == 0x205F || n == 0x3000
  }

  predicate IsBlank(text: string) {
    forall i | 0 <= i < |text| :: IsWhitespace(text[i])
  }

  // ---- What an event says ----

  datatype Event =
    | MessageStart(usage: Option<Usage>)
    | Opens(index: nat, id: string, name: string)
    | Says(text: string)
    | Fragment(index: nat, text: string)
    | Closes(index: nat)
    | MessageDelta(reason: Option<string>, usage: Option<Usage>)
    | MessageStop
    | Fails(error: Error)
    | Ignored

  function Field(value: Json, name: string): nat {
    var found := value.GetU64(name);
    if found.Some? then found.value else 0
  }

  function UsageOf(value: Json): Usage {
    Usage(Field(value, "input_tokens"), Field(value, "output_tokens"))
  }

  function Member(value: Json, name: string): Json {
    var found := value.Get(name);
    if found.Some? then found.value else Null
  }

  function TextOf(value: Json): Event {
    match value.GetStr("text")
    case Some(text) => if text == "" then Ignored else Says(text)
    case None => Ignored
  }

  function ReadStart(index: nat, block: Json): Event {
    match block.GetStr("type")
    case Some(kind) =>
      if kind == "tool_use" then
        match block.GetStr("id")
        case None => Fails(NoId)
        case Some(id) =>
          match block.GetStr("name")
          case None => Fails(NoName)
          case Some(name) => Opens(index, id, name)
      else if kind == "text" then TextOf(block)
      else Ignored
    case None => Ignored
  }

  function ReadDelta(index: nat, delta: Json): Event {
    match delta.GetStr("type")
    case Some(kind) =>
      if kind == "text_delta" then TextOf(delta)
      else if kind == "input_json_delta" then
        Fragment(index, match delta.GetStr("partial_json") case Some(text) => text case None => "")
      else Ignored
    case None => Ignored
  }

  function StreamError(value: Json): Error {
    ApiError(match value.GetStr("type") case Some(kind) => kind case None => "error",
             match value.GetStr("message") case Some(text) => text case None => "the Anthropic API reported an error")
  }

  function Read(event: Json): Event {
    match event.GetStr("type")
    case None => Ignored
    case Some(kind) =>
      if kind == "message_start" then
        var usage := Member(event, "message").Get("usage");
        MessageStart(if usage.Some? then Some(UsageOf(usage.value)) else None)
      else if kind in {"content_block_start", "content_block_delta", "content_block_stop"} then
        match event.GetU64("index")
        case None => Fails(NoIndex)
        case Some(index) =>
          if kind == "content_block_start" then ReadStart(index, Member(event, "content_block"))
          else if kind == "content_block_delta" then ReadDelta(index, Member(event, "delta"))
          else Closes(index)
      else if kind == "message_delta" then
        var usage := event.Get("usage");
        MessageDelta(Member(event, "delta").GetStr("stop_reason"),
                     if usage.Some? then Some(UsageOf(usage.value)) else None)
      else if kind == "message_stop" then MessageStop
      else if kind == "error" then
        Fails(StreamError(if event.Get("error").Some? then event.Get("error").value else event))
      else Ignored
  }

  // ---- What it does ----

  datatype Step = Emit(chunks: seq<Chunk>) | End | Continue

  /** The call an assembled block makes. A tool taking no arguments streams no fragments at all. */
  function Complete(codec: Codec, call: PendingCall): Result<ToolCall, Error> {
    if IsBlank(call.arguments) then Success(ToolCall(call.id, call.name, EMPTY_OBJECT))
    else
      match codec.parse(call.arguments)
      case Some(arguments) => Success(ToolCall(call.id, call.name, arguments))
      case None => Failure(BadArguments(call.name))
  }

  function Apply(codec: Codec, s: StreamState, event: Event): (StreamState, Result<Step, Error>) {
    match event
    case MessageStart(usage) =>
      (if usage.Some? then s.(inputTokens := usage.value.inputTokens, outputTokens := usage.value.outputTokens) else s,
       Success(Continue))
    case Opens(index, id, name) => (s.(pending := s.pending[index := PendingCall(id, name, "")]), Success(Continue))
    case Says(text) => (s, Success(Emit([Delta(text)])))
    case Fragment(index, text) =>
      if index !in s.pending then (s, Failure(NeverOpened))
      else if Utf8Len(s.pending[index].arguments) + Utf8Len(text) > MAX_TOOL_INPUT_BYTES then
        (s, Failure(ArgumentsTooLong))
      else
        var call := s.pending[index];
        (s.(pending := s.pending[index := call.(arguments := call.arguments + text)]), Success(Continue))
    case Closes(index) =>
      if index !in s.pending then (s, Success(Continue))
      else
        var closed := s.(pending := s.pending - {index});
        (match Complete(codec, s.pending[index])
         case Success(call) => (closed, Success(Emit([CallChunk(call)])))
         case Failure(error) => (closed, Failure(error)))
    case MessageDelta(reason, usage) =>
      var s1 := if reason.Some? then s.(stopReason := reason) else s;
      (match usage
       case None => s1
       case Some(u) =>
         s1.(outputTokens := if u.outputTokens > 0 then u.outputTokens else s1.outputTokens,
             inputTokens := if u.inputTokens > 0 then u.inputTokens else s1.inputTokens),
       Success(Continue))
    case MessageStop => (s, Success(End))
    case Fails(error) => (s, Failure(error))
    case Ignored => (s, Success(Continue))
  }

  function StateUsage(s: StreamState): Option<Usage> {
    if s.inputTokens == 0 && s.outputTokens == 0 then None else Some(Usage(s.inputTokens, s.outputTokens))
  }

  function MapStopReason(reason: Option<string>): FinishReason {
    match reason
    case Some(name) =>
      if name == "max_tokens" then Length
      else if name == "tool_use" then ToolCalls
      else if name == "refusal" then Filtered
      else Stop
    case None => Stop
  }

  function FinishOf(s: StreamState, sawToolCall: bool): FinishReason {
    if sawToolCall then ToolCalls else MapStopReason(s.stopReason)
  }

  /** The state as the decoder keeps it, folded into by one event at a time. */
  class Reassembly {
    var pending: map<nat, PendingCall>
    var inputTokens: nat
    var outputTokens: nat
    var stopReason: Option<string>

    ghost function State(): StreamState
      reads this
    {
      StreamState(pending, inputTokens, outputTokens, stopReason)
    }

    constructor ()
      ensures State() == START
    {
      pending, inputTokens, outputTokens, stopReason := map[], 0, 0, None;
    }

    method FoldIn(codec: Codec, json: Json) returns (r: Result<Step, Error>)
      modifies this
      ensures (State(), r) == Apply(codec, old(State()), Read(json))
    {
      var event := Read(json);
      match event {
        case MessageStart(usage) =>
          if usage.Some? {
            inputTokens, outputTokens := usage.value.inputTokens, usage.value.outputTokens;
          }
          r := Success(Continue);
        case Opens(index, id, name) =>
          pending := pending[index := PendingCall(id, name, "")];
          r := Success(Continue);
        case Says(text) =>
          r := Success(Emit([Delta(text)]));
        case Fragment(index, text) =>
          if index !in pending {
            return Failure(NeverOpened);
          }
          var call := pending[index];
          if Utf8Len(call.arguments) + Utf8Len(text) > MAX_TOOL_INPUT_BYTES {
            return Failure(ArgumentsTooLong);
          }
          pending := pending[index := call.(arguments := call.arguments + text)];
          r := Success(Continue);
        case Closes(index) =>
          if index !in pending {
            return Success(Continue);
          }
          var call := pending[index];
          pending := pending - {index};
          var completed := Complete(codec, call);
          match completed {
            case Success(made) => r := Success(Emit([CallChunk(made)]));
            case Failure(error) => r := Failure(error);
          }
        case MessageDelta(reason, usage) =>
          if reason.Some? {
            stopReason := reason;
          }
          if usage.Some? {
            if usage.value.outputTokens > 0 {
              outputTokens := usage.value.outputTokens;
            }
            if usage.value.inputTokens > 0 {
              inputTokens := usage.value.inputTokens;
            }
          }
          r := Success(Continue);
        case MessageStop =>
          r := Success(End);
        case Fails(error) =>
          r := Failure(error);
        case Ignored =>
          r := Success(Continue);
      }
    }
  }

  // ---- Whole streams of events ----

  datatype Item = Yielded(chunk: Chunk) | Failed(error: Error)

  /** The decoder between events: its state and whether a call has been yielded. */
  datatype Decoder = Decoder(state: StreamState, sawToolCall: bool)

  const FRESH: Decoder := Decoder(START, false)

  function Items(chunks: seq<Chunk>): (items: seq<Item>)
    ensures |items| == |chunks| && forall i :: 0 <= i < |chunks| ==> items[i] == Yielded(chunks[i])
  {
    seq(|chunks|, i requires 0 <= i < |chunks| => Yielded(chunks[i]))
  }

  /** What one event makes the decoder yield, and whether the stream is over. */
  datatype Handled = Handled(items: seq<Item>, decoder: Decoder, over: bool)

  function Handle(codec: Codec, d: Decoder, event: Event): Handled {
    var (s', step) := Apply(codec, d.state, event);
    match step
    case Failure(error) => Handled([Failed(error)], d.(state := s'), true)
    case Success(Emit(chunks)) =>
      Handled(Items(chunks), Decoder(s', d.sawToolCall || exists c :: c in chunks && c.CallChunk?), false)
    case Success(End) =>
      Handled([Yielded(Done(FinishOf(s', d.sawToolCall), StateUsage(s')))], d.(state := s'), true)
    case Success(Continue) => Handled([], d.(state := s'), false)
  }

  function HandleAll(codec: Codec, d: Decoder, events: seq<Event>): Handled
    decreases |events|
  {
    if events == [] then Handled([], d, false)
    else
      var first := Handle(codec, d, events[0]);
      if first.over then first
      else
        var rest := HandleAll(codec, first.decoder, events[1..]);
        rest.(items := first.items + rest.items)
  }

  lemma {:induction false} HandleAllJoin(codec: Codec, d: Decoder, a: seq<Event>, b: seq<Event>)
    ensures var first := HandleAll(codec, d, a);
            HandleAll(codec, d, a + b)
            == (if first.over then first
                else
                  var rest := HandleAll(codec, first.decoder, b);
                  rest.(items := first.items + rest.items))
    decreases |a|
  {
    if a == [] {
      assert a + b == b;
      assert [] + HandleAll(codec, d, b).items == HandleAll(codec, d, b).items;
    } else {
      assert (a + b)[0] == a[0] && (a + b)[1..] == a[1..] + b;
      var first := Handle(codec, d, a[0]);
      HandleAllJoin(codec, first.decoder, a[1..], b);
      var middle := HandleAll(codec, first.decoder, a[1..]);
      if !first.over && !middle.over {
        var rest := HandleAll(codec, middle.decoder, b);
        assert first.items + (middle.items + rest.items) == (first.items + middle.items) + rest.items;
      }
    }
  }

  // ---- Blocks that do not interfere ----

  /** The call being assembled at `index`, from the events that name `index` alone: what its latest
      opening named, with every fragment sent to it since, unless it has been closed. */
  function Assembled(events: seq<Event>, index: nat): Option<PendingCall> {
    if events == [] then None
    else
      var last := events[|events| - 1];
      var before := Assembled(events[..|events| - 1], index);
      match last
      case Opens(i, id, name) => if i == index then Some(PendingCall(id, name, "")) else before
      case Fragment(i, text) =>
        if i == index && before.Some? then Some(before.value.(arguments := before.value.arguments + text)) else before
      case Closes(i) => if i == index then None else before
      case _ => before
  }

  predicate Concerns(event: Event, index: nat) {
    (event.Opens? || event.Fragment? || event.Closes?) && event.index == index
  }

  function Only(events: seq<Event>, index: nat): seq<Event> {
    if events == [] then []
    else
      var last := events[|events| - 1];
      Only(events[..|events| - 1], index) + (if Concerns(last, index) then [last] else [])
  }

  /** What other blocks are sent makes no difference to one. */
  lemma {:induction false} OthersDoNotInterfere(events: seq<Event>, index: nat)
    ensures Assembled(events, index) == Assembled(Only(events, index), index)
  {
    if events != [] {
      var front, last := events[..|events| - 1], events[|events| - 1];
      OthersDoNotInterfere(front, index);
      if Concerns(last, index) {
        var only := Only(events, index);
        assert only[..|only| - 1] == Only(front, index);
      } else {
        assert Only(events, index) == Only(front, index);
      }
    }
  }

  lemma HandleAllSnoc(codec: Codec, d: Decoder, front: seq<Event>, last: Event)
    requires !HandleAll(codec, d, front).over
    ensures var before := HandleAll(codec, d, front);
            var step := Handle(codec, before.decoder, last);
            && HandleAll(codec, d, front + [last]).over == step.over
            && HandleAll(codec, d, front + [last]).decoder == step.decoder
            && HandleAll(codec, d, front + [last]).items == before.items + step.items
  {
    HandleAllJoin(codec, d, front, [last]);
    var step := Handle(codec, HandleAll(codec, d, front).decoder, last);
    assert step.items + [] == step.items;
  }

  lemma StillRunning(codec: Codec, d: Decoder, front: seq<Event>, last: Event)
    requires !HandleAll(codec, d, front + [last]).over
    ensures !HandleAll(codec, d, front).over
  {
    HandleAllJoin(codec, d, front, [last]);
  }

  /** While the stream runs, the block held at each index is what its own events assemble, and no
      block holds more than it may. */
  lemma {:induction false} PendingIsAssembled(codec: Codec, events: seq<Event>)
    requires !HandleAll(codec, FRESH, events).over
    ensures var pending := HandleAll(codec, FRESH, events).decoder.state.pending;
            && (forall i: nat :: Assembled(events, i).Some? <==> i in pending)
            && (forall i | i in pending :: Assembled(events, i) == Some(pending[i]))
            && (forall i | i in pending :: Utf8Len(pending[i].arguments) <= MAX_TOOL_INPUT_BYTES)
  {
    if events != [] {
      var front, last := events[..|events| - 1], events[|events| - 1];
      assert events == front + [last];
      StillRunning(codec, FRESH, front, last);
      PendingIsAssembled(codec, front);
      HandleAllSnoc(codec, FRESH, front, last);
      PendingStep(codec, front, last, HandleAll(codec, FRESH, front).decoder);
    }
  }

  lemma PendingStep(codec: Codec, front: seq<Event>, last: Event, before: Decoder)
    requires forall i: nat :: Assembled(front, i).Some? <==> i in before.state.pending
    requires forall i | i in before.state.pending :: Assembled(front, i) == Some(before.state.pending[i])
    requires forall i | i in before.state.pending ::
               Utf8Len(before.state.pending[i].arguments) <= MAX_TOOL_INPUT_BYTES
    requires !Handle(codec, before, last).over
    ensures var pending := Handle(codec, before, last).decoder.state.pending;
            var events := front + [last];
            && (forall i: nat :: Assembled(events, i).Some? <==> i in pending)
            && (forall i | i in pending :: Assembled(events, i) == Some(pending[i]))
            && (forall i | i in pending :: Utf8Len(pending[i].arguments) <= MAX_TOOL_INPUT_BYTES)
  {
    assert (front + [last])[..|front|] == front;
    if last.Fragment? && last.index in before.state.pending {
      Utf8LenJoin(before.state.pending[last.index].arguments, last.text);
    }
  }

  /** Closing a block yields its call at most once, made of exactly the fragments sent to its index
      since its latest opening, whatever else was interleaved. */
  lemma ClosingYieldsWhatWasAssembled(codec: Codec, events: seq<Event>, index: nat)
    requires !HandleAll(codec, FRESH, events).over
    ensures var closed := Handle(codec, HandleAll(codec, FRESH, events).decoder, Closes(index));
            match Assembled(Only(events, index), index)
            case None => closed.items == [] && !closed.over
            case Some(call) =>
              (match Complete(codec, call)
               case Success(made) => closed.items == [Yielded(CallChunk(made))] && !closed.over
               case Failure(error) => closed.items == [Failed(error)] && closed.over)
    ensures Assembled(events + [Closes(index)], index) == None
  {
    PendingIsAssembled(codec, events);
    OthersDoNotInterfere(events, index);
    assert (events + [Closes(index)])[..|events|] == events;
  }

  // ---- Nothing follows the end ----

  predicate Final(item: Item) {
    item.Failed? || item.chunk.Done?
  }

  ghost predicate EndsAtFinal(handled: Handled) {
    && (forall i | 0 <= i < |handled.items| && Final(handled.items[i]) :: i == |handled.items| - 1)
    && (handled.over <==> exists i :: 0 <= i < |handled.items| && Final(handled.items[i]))
  }

  lemma HandleEndsAtFinal(codec: Codec, d: Decoder, event: Event)
    ensures EndsAtFinal(Handle(codec, d, event))
  {
    var (s', step) := Apply(codec, d.state, event);
    var handled := Handle(codec, d, event);
    match step
    case Failure(error) => assert Final(handled.items[0]);
    case Success(End) => assert Final(handled.items[0]);
    case Success(Emit(chunks)) => assert forall i | 0 <= i < |chunks| :: !Final(handled.items[i]);
    case Success(Continue) =>
  }

  lemma {:induction false} HandleAllEndsAtFinal(codec: Codec, d: Decoder, events: seq<Event>)
    ensures EndsAtFinal(HandleAll(codec, d, events))
    decreases |events|
  {
    if events != [] {
      var first := Handle(codec, d, events[0]);
      HandleEndsAtFinal(codec, d, events[0]);
      if !first.over {
        HandleAllEndsAtFinal(codec, first.decoder, events[1..]);
        var rest := HandleAll(codec, first.decoder, events[1..]);
        JoinEndsAtFinal(first, rest);
      }
    }
  }

  lemma JoinEndsAtFinal(first: Handled, rest: Handled)
    requires EndsAtFinal(first) && !first.over && EndsAtFinal(rest)
    ensures EndsAtFinal(rest.(items := first.items + rest.items))
  {
    var items := first.items + rest.items;
    if rest.over {
      var i :| 0 <= i < |rest.items| && Final(rest.items[i]);
      assert items[|first.items| + i] == rest.items[i];
    }
    forall i | 0 <= i < |items| && Final(items[i]) ensures i == |items| - 1 && rest.over {
      assert i >= |first.items| && items[i] == rest.items[i - |first.items|];
    }
  }
}
