/** A response streamed in pieces says what the same response says whole. */
module StreamAgreement {
  import opened Wrappers
  import opened Joining
  import opened JsonValues
  import opened Conversation
  import opened StreamEvents
  import opened WireResponses
  import opened Words

  // ---- A response and how it is streamed ----

  /** One content block and the pieces it is streamed in: text opens with `opening` (often empty), and a
      call's arguments are fragments of its input's text. */
  datatype Block =
    | TextBlock(index: nat, opening: string, pieces: seq<string>)
    | CallBlock(index: nat, id: string, name: string, input: Json, pieces: seq<string>)

  /** The fragments spell the input, within the size allowed. An empty input may be spelled by nothing. */
  ghost predicate Spells(codec: Codec, text: string, input: Json) {
    && Utf8Len(text) <= MAX_TOOL_INPUT_BYTES
    && if IsBlank(text) then input == EMPTY_OBJECT else codec.parse(text) == Some(input)
  }

  ghost predicate Streamable(codec: Codec, block: Block) {
    && block.index <= U64_MAX
    && (block.CallBlock? ==> Spells(codec, Concatenated(block.pieces), block.input))
  }

  /** A codec's own printing of an input spells it, however it is cut. */
  lemma PrintedInputSpellsIt(codec: Codec, printing: Json -> string, input: Json, pieces: seq<string>)
    requires codec.parse(printing(input)) == Some(input) && !IsBlank(printing(input))
    requires Concatenated(pieces) == printing(input) && Utf8Len(printing(input)) <= MAX_TOOL_INPUT_BYTES
    ensures Spells(codec, Concatenated(pieces), input)
  {
  }

  /** The block as the response carries it whole. */
  function BlockJson(block: Block): Json {
    match block
    case TextBlock(_, opening, pieces) =>
      Object(map["type" := Str("text"), "text" := Str(opening + Concatenated(pieces))])
    case CallBlock(_, id, name, input, _) =>
      Object(map["type" := Str("tool_use"), "id" := Str(id), "name" := Str(name), "input" := input])
  }

  function PartOf(block: Block): ContentPart {
    match block
    case TextBlock(_, opening, pieces) => Text(opening + Concatenated(pieces))
    case CallBlock(_, id, name, input, _) => Call(ToolCall(id, name, input))
  }

  // ---- The events that stream it ----

  function StartEvent(index: nat, block: Json): Json {
    Object(map["type" := Str("content_block_start"), "index" := Number(index), "content_block" := block])
  }

  function DeltaEvent(index: nat, delta: Json): Json {
    Object(map["type" := Str("content_block_delta"), "index" := Number(index), "delta" := delta])
  }

  function StopEvent(index: nat): Json {
    Object(map["type" := Str("content_block_stop"), "index" := Number(index)])
  }

  function TextDelta(text: string): Json {
    Object(map["type" := Str("text_delta"), "text" := Str(text)])
  }

  function InputDelta(text: string): Json {
    Object(map["type" := Str("input_json_delta"), "partial_json" := Str(text)])
  }

  function UsageJson(usage: Usage): Json {
    Object(map["input_tokens" := Number(usage.inputTokens), "output_tokens" := Number(usage.outputTokens)])
  }

  predicate Countable(usage: Usage) {
    usage.inputTokens <= U64_MAX && usage.outputTokens <= U64_MAX
  }

  function MessageStartEvent(usage: Usage): Json {
    Object(map["type" := Str("message_start"), "message" := Object(map["usage" := UsageJson(usage)])])
  }

  function MessageDeltaEvent(reason: Option<string>, usage: Usage): Json {
    var said := if reason.Some? then Str(reason.value) else Null;
    Object(map["type" := Str("message_delta"), "delta" := Object(map["stop_reason" := said]),
               "usage" := UsageJson(usage)])
  }

  const MESSAGE_STOP: Json := Object(map["type" := Str("message_stop")])

  function DeltaEvents(block: Block, pieces: seq<string>): seq<Json> {
    if pieces == [] then []
    else [DeltaEvent(block.index, if block.TextBlock? then TextDelta(pieces[0]) else InputDelta(pieces[0]))]
         + DeltaEvents(block, pieces[1..])
  }

  /** A block opens, its pieces follow, and it closes. */
  function BlockEvents(block: Block): seq<Json> {
    var start :=
      match block
      case TextBlock(_, opening, _) => Object(map["type" := Str("text"), "text" := Str(opening)])
      case CallBlock(_, id, name, _, _) =>
        Object(map["type" := Str("tool_use"), "id" := Str(id), "name" := Str(name), "input" := EMPTY_OBJECT]);
    [StartEvent(block.index, start)] + DeltaEvents(block, block.pieces) + [StopEvent(block.index)]
  }

  function AllBlockEvents(blocks: seq<Block>): seq<Json> {
    if blocks == [] then [] else BlockEvents(blocks[0]) + AllBlockEvents(blocks[1..])
  }

  /** The whole stream: the input tokens come first, the stop reason and output tokens last. */
  function ResponseEvents(blocks: seq<Block>, reason: Option<string>, opening: Usage, closing: Usage): seq<Json> {
    [MessageStartEvent(opening)] + AllBlockEvents(blocks) + [MessageDeltaEvent(reason, closing), MESSAGE_STOP]
  }

  function ReadAll(events: seq<Json>): (said: seq<Event>)
    ensures |said| == |events| && forall i :: 0 <= i < |events| ==> said[i] == Read(events[i])
  {
    seq(|events|, i requires 0 <= i < |events| => Read(events[i]))
  }

  // ---- What those events say ----

  function Said(text: string): Event {
    if text == "" then Ignored else Says(text)
  }

  function PieceSaid(block: Block, piece: string): Event {
    if block.TextBlock? then Said(piece) else Fragment(block.index, piece)
  }

  function PiecesSaid(block: Block, pieces: seq<string>): seq<Event> {
    if pieces == [] then [] else [PieceSaid(block, pieces[0])] + PiecesSaid(block, pieces[1..])
  }

  function OpeningSaid(block: Block): Event {
    match block
    case TextBlock(_, opening, _) => Said(opening)
    case CallBlock(index, id, name, _, _) => Opens(index, id, name)
  }

  function BlockSaid(block: Block): seq<Event> {
    [OpeningSaid(block)] + PiecesSaid(block, block.pieces) + [Closes(block.index)]
  }

  function AllBlocksSaid(blocks: seq<Block>): seq<Event> {
    if blocks == [] then [] else BlockSaid(blocks[0]) + AllBlocksSaid(blocks[1..])
  }

  function ResponseSaid(blocks: seq<Block>, reason: Option<string>, opening: Usage, closing: Usage): seq<Event> {
    [MessageStart(Some(opening))] + AllBlocksSaid(blocks) + [MessageDelta(reason, Some(closing)), MessageStop]
  }

  lemma ReadStart(index: nat, block: Json)
    requires index <= U64_MAX
    ensures Read(StartEvent(index, block)) == StreamEvents.ReadStart(index, block)
  {
    assert "content_block_start"[14] != "content_block_delta"[14];
  }

  lemma ReadStartEvent(block: Block)
    requires block.index <= U64_MAX
    ensures Read(BlockEvents(block)[0]) == OpeningSaid(block)
  {
    var start := Member(BlockEvents(block)[0], "content_block");
    ReadStart(block.index, start);
    assert BlockEvents(block)[0] == StartEvent(block.index, start);
  }

  lemma ReadDeltaEvent(block: Block, piece: string)
    requires block.index <= U64_MAX
    ensures Read(DeltaEvent(block.index, if block.TextBlock? then TextDelta(piece) else InputDelta(piece)))
         == PieceSaid(block, piece)
  {
    assert "content_block_start"[14] != "content_block_delta"[14];
  }

  lemma ReadStopEvent(index: nat)
    requires index <= U64_MAX
    ensures Read(StopEvent(index)) == Closes(index)
  {
  }

  lemma ReadUsage(usage: Usage)
    requires Countable(usage)
    ensures UsageOf(UsageJson(usage)) == usage
  {
  }

  lemma ReadMessageStart(opening: Usage)
    requires Countable(opening)
    ensures Read(MessageStartEvent(opening)) == MessageStart(Some(opening))
  {
    ReadUsage(opening);
  }

  lemma ReadMessageDelta(reason: Option<string>, closing: Usage)
    requires Countable(closing)
    ensures Read(MessageDeltaEvent(reason, closing)) == MessageDelta(reason, Some(closing))
    ensures Read(MESSAGE_STOP) == MessageStop
  {
    assert "message_start"[8] != "message_delta"[8];
    ReadUsage(closing);
  }

  lemma {:induction false} ReadAllJoin(a: seq<Json>, b: seq<Json>)
    ensures ReadAll(a + b) == ReadAll(a) + ReadAll(b)
  {
  }

  lemma {:induction false} ReadDeltaEvents(block: Block, pieces: seq<string>)
    requires block.index <= U64_MAX
    ensures ReadAll(DeltaEvents(block, pieces)) == PiecesSaid(block, pieces)
  {
    if pieces != [] {
      var delta := DeltaEvent(block.index, if block.TextBlock? then TextDelta(pieces[0]) else InputDelta(pieces[0]));
      ReadDeltaEvent(block, pieces[0]);
      ReadDeltaEvents(block, pieces[1..]);
      ReadAllJoin([delta], DeltaEvents(block, pieces[1..]));
      assert ReadAll([delta]) == [Read(delta)];
    }
  }

  lemma ReadBlockEvents(block: Block)
    requires block.index <= U64_MAX
    ensures ReadAll(BlockEvents(block)) == BlockSaid(block)
  {
    var start, deltas, stop := BlockEvents(block)[0], DeltaEvents(block, block.pieces), StopEvent(block.index);
    ReadStartEvent(block);
    ReadDeltaEvents(block, block.pieces);
    ReadStopEvent(block.index);
    ReadAllJoin([start] + deltas, [stop]);
    ReadAllJoin([start], deltas);
    assert ReadAll([start]) == [Read(start)] && ReadAll([stop]) == [Read(stop)];
  }

  lemma {:induction false} ReadAllBlockEvents(codec: Codec, blocks: seq<Block>)
    requires forall i | 0 <= i < |blocks| :: Streamable(codec, blocks[i])
    ensures ReadAll(AllBlockEvents(blocks)) == AllBlocksSaid(blocks)
    decreases |blocks|
  {
    if blocks != [] {
      ReadBlockEvents(blocks[0]);
      ReadAllBlockEvents(codec, blocks[1..]);
      ReadAllJoin(BlockEvents(blocks[0]), AllBlockEvents(blocks[1..]));
    }
  }

  lemma ReadResponseEvents(codec: Codec, blocks: seq<Block>, reason: Option<string>, opening: Usage, closing: Usage)
    requires forall i | 0 <= i < |blocks| :: Streamable(codec, blocks[i])
    requires Countable(opening) && Countable(closing)
    ensures ReadAll(ResponseEvents(blocks, reason, opening, closing)) == ResponseSaid(blocks, reason, opening, closing)
  {
    ReadMessageStart(opening);
    ReadMessageDelta(reason, closing);
    ReadAllBlockEvents(codec, blocks);
    var first, last := [MessageStartEvent(opening)], [MessageDeltaEvent(reason, closing), MESSAGE_STOP];
    ReadAllJoin(first + AllBlockEvents(blocks), last);
    ReadAllJoin(first, AllBlockEvents(blocks));
    assert ReadAll(first) == [Read(first[0])] && ReadAll(last) == [Read(last[0]), Read(last[1])];
  }

  // ---- Events that say nothing ----

  /** The events that say something: pings and kinds not modelled left out. */
  function Heard(events: seq<Event>): seq<Event> {
    if events == [] then []
    else (if events[0] == Ignored then [] else [events[0]]) + Heard(events[1..])
  }

  lemma HandleIgnored(codec: Codec, d: Decoder)
    ensures Handle(codec, d, Ignored) == Handled([], d, false)
  {
  }

  /** Events that say nothing change nothing, wherever they come. */
  lemma {:induction false} OnlyTheHeardMatters(codec: Codec, d: Decoder, events: seq<Event>)
    ensures HandleAll(codec, d, events) == HandleAll(codec, d, Heard(events))
    decreases |events|
  {
    if events != [] {
      var rest := Heard(events[1..]);
      var step := Handle(codec, d, events[0]);
      OnlyTheHeardMatters(codec, step.decoder, events[1..]);
      if events[0] == Ignored {
        HandleIgnored(codec, d);
        assert [] + rest == rest;
        var after := HandleAll(codec, d, rest);
        assert [] + after.items == after.items;
      } else {
        assert ([events[0]] + rest)[1..] == rest;
      }
    }
  }

  // ---- Coalescing text ----

  /** Adds a part, merging text into text before it and dropping empty text. */
  function Push(parts: seq<ContentPart>, part: ContentPart): seq<ContentPart> {
    if part.Text? && part.text == "" then parts
    else if part.Text? && parts != [] && parts[|parts| - 1].Text? then
      parts[..|parts| - 1] + [Text(parts[|parts| - 1].text + part.text)]
    else parts + [part]
  }

  /** `parts` pushed one by one after `before`. */
  function Coalesce(before: seq<ContentPart>, parts: seq<ContentPart>): seq<ContentPart>
    decreases |parts|
  {
    if parts == [] then before else Coalesce(Push(before, parts[0]), parts[1..])
  }

  lemma {:induction false} CoalesceJoin(before: seq<ContentPart>, a: seq<ContentPart>, b: seq<ContentPart>)
    ensures Coalesce(before, a + b) == Coalesce(Coalesce(before, a), b)
    decreases |a|
  {
    if a == [] {
      assert a + b == b;
    } else {
      assert (a + b)[0] == a[0] && (a + b)[1..] == a[1..] + b;
      CoalesceJoin(Push(before, a[0]), a[1..], b);
    }
  }

  lemma PushText(before: seq<ContentPart>, a: string, b: string)
    ensures Push(Push(before, Text(a)), Text(b)) == Push(before, Text(a + b))
  {
    if a == "" {
      assert a + b == b;
    } else if b == "" {
      assert a + b == a;
    } else if before != [] && before[|before| - 1].Text? {
      var last := before[|before| - 1].text;
      assert (last + a) + b == last + (a + b);
      assert Push(before, Text(a))[..|before| - 1] == before[..|before| - 1];
    } else {
      assert Push(before, Text(a))[..|before|] == before;
    }
  }

  /** Coalescing keeps every call, in order. */
  lemma {:induction false} CoalesceKeepsCalls(before: seq<ContentPart>, parts: seq<ContentPart>)
    ensures CallsIn(Coalesce(before, parts)) == CallsIn(before) + CallsIn(parts)
    decreases |parts|
  {
    if parts == [] {
      assert CallsIn(before) + [] == CallsIn(before);
    } else {
      CoalesceKeepsCalls(Push(before, parts[0]), parts[1..]);
      PushKeepsCalls(before, parts[0]);
      var call := if parts[0].Call? then [parts[0].call] else [];
      JoinAssociates(CallsIn(before), call, CallsIn(parts[1..]));
    }
  }

  lemma PushKeepsCalls(before: seq<ContentPart>, part: ContentPart)
    ensures CallsIn(Push(before, part)) == CallsIn(before) + (if part.Call? then [part.call] else [])
  {
    var call := if part.Call? then [part.call] else [];
    CallsInSnoc(before, part);
    if part.Text? && before != [] && before[|before| - 1].Text? {
      var front, last := before[..|before| - 1], before[|before| - 1];
      assert before == front + [last];
      CallsInSnoc(front, last);
      CallsInSnoc(front, Text(last.text + part.text));
    }
    assert CallsIn(before) + [] == CallsIn(before);
  }

  // ---- What a listener gathers ----

  function Part(item: Item): seq<ContentPart> {
    match item
    case Yielded(Delta(text)) => [Text(text)]
    case Yielded(CallChunk(call)) => [Call(call)]
    case _ => []
  }

  /** The content in what was yielded. */
  function Parts(items: seq<Item>): seq<ContentPart> {
    if items == [] then [] else Part(items[0]) + Parts(items[1..])
  }

  lemma {:induction false} PartsJoin(a: seq<Item>, b: seq<Item>)
    ensures Parts(a + b) == Parts(a) + Parts(b)
  {
    if a == [] {
      assert a + b == b;
    } else {
      assert (a + b)[1..] == a[1..] + b;
      PartsJoin(a[1..], b);
    }
  }

  /** The parts gathered from `items`, coalesced after `before`, come to `after`, with nothing failed
      or finished among them. */
  ghost predicate Tells(items: seq<Item>, before: seq<ContentPart>, after: seq<ContentPart>) {
    && (forall i | 0 <= i < |items| :: !Final(items[i]))
    && Coalesce(before, Parts(items)) == after
  }

  lemma TellsJoin(a: seq<Item>, b: seq<Item>, before: seq<ContentPart>, between: seq<ContentPart>,
                  after: seq<ContentPart>)
    requires Tells(a, before, between) && Tells(b, between, after)
    ensures Tells(a + b, before, after)
  {
    PartsJoin(a, b);
    CoalesceJoin(before, Parts(a), Parts(b));
  }

  // ---- One block ----

  lemma HandleSaid(codec: Codec, d: Decoder, text: string, before: seq<ContentPart>)
    ensures var step := Handle(codec, d, Said(text));
            step.decoder == d && !step.over && Tells(step.items, before, Push(before, Text(text)))
  {
    if text != "" {
      var step := Handle(codec, d, Says(text));
      assert step.items == [Yielded(Delta(text))];
      assert Parts(step.items) == [Text(text)] + [];
    }
  }

  lemma {:induction false} TextPiecesSaid(codec: Codec, d: Decoder, block: Block, pieces: seq<string>,
                                          before: seq<ContentPart>)
    requires block.TextBlock?
    ensures var all := HandleAll(codec, d, PiecesSaid(block, pieces));
            all.decoder == d && !all.over && Tells(all.items, before, Push(before, Text(Concatenated(pieces))))
    decreases |pieces|
  {
    if pieces != [] {
      var rest := PiecesSaid(block, pieces[1..]);
      assert ([Said(pieces[0])] + rest)[1..] == rest;
      HandleSaid(codec, d, pieces[0], before);
      var between := Push(before, Text(pieces[0]));
      TextPiecesSaid(codec, d, block, pieces[1..], between);
      PushText(before, pieces[0], Concatenated(pieces[1..]));
      TellsJoin(Handle(codec, d, Said(pieces[0])).items, HandleAll(codec, d, rest).items, before, between,
                Push(between, Text(Concatenated(pieces[1..]))));
    }
  }

  /** The decoder `d`, holding one block open. */
  function Holding(d: Decoder, index: nat, call: PendingCall): Decoder {
    d.(state := d.state.(pending := map[index := call]))
  }

  lemma FragmentSaid(codec: Codec, d: Decoder, index: nat, call: PendingCall, text: string)
    requires Utf8Len(call.arguments) + Utf8Len(text) <= MAX_TOOL_INPUT_BYTES
    ensures Handle(codec, Holding(d, index, call), Fragment(index, text))
         == Handled([], Holding(d, index, call.(arguments := call.arguments + text)), false)
  {
    var longer := call.(arguments := call.arguments + text);
    assert map[index := call][index := longer] == map[index := longer];
  }

  lemma {:induction false} CallPiecesSaid(codec: Codec, d: Decoder, block: Block, pieces: seq<string>,
                                          call: PendingCall)
    requires block.CallBlock? && Utf8Len(call.arguments + Concatenated(pieces)) <= MAX_TOOL_INPUT_BYTES
    ensures HandleAll(codec, Holding(d, block.index, call), PiecesSaid(block, pieces))
         == Handled([], Holding(d, block.index, call.(arguments := call.arguments + Concatenated(pieces))), false)
    decreases |pieces|
  {
    if pieces == [] {
      assert call.arguments + "" == call.arguments;
    } else {
      var text, more := pieces[0], Concatenated(pieces[1..]);
      assert call.arguments + (text + more) == (call.arguments + text) + more;
      Utf8LenJoin(call.arguments + text, more);
      Utf8LenJoin(call.arguments, text);
      FragmentSaid(codec, d, block.index, call, text);
      var rest := PiecesSaid(block, pieces[1..]);
      assert ([Fragment(block.index, text)] + rest)[1..] == rest;
      CallPiecesSaid(codec, d, block, pieces[1..], call.(arguments := call.arguments + text));
    }
  }

  lemma ClosesCall(codec: Codec, d: Decoder, block: Block, call: PendingCall, before: seq<ContentPart>)
    requires block.CallBlock? && Streamable(codec, block) && d.state.pending == map[]
    requires call == PendingCall(block.id, block.name, Concatenated(block.pieces))
    ensures var step := Handle(codec, Holding(d, block.index, call), Closes(block.index));
            && step.decoder == d.(sawToolCall := true) && !step.over
            && Tells(step.items, before, Push(before, PartOf(block)))
  {
    var made := ToolCall(block.id, block.name, block.input);
    assert Complete(codec, call) == Success(made);
    assert map[block.index := call] - {block.index} == map[];
    var step := Handle(codec, Holding(d, block.index, call), Closes(block.index));
    var chunks := [CallChunk(made)];
    assert chunks[0] in chunks;
    assert step.items == [Yielded(chunks[0])];
    assert Parts(step.items) == [Call(made)] + [];
  }

  /** `after` is `before` once a block has been told: nothing held, and a call remembered. */
  function Told(before: Decoder, block: Block): Decoder {
    before.(sawToolCall := before.sawToolCall || block.CallBlock?)
  }

  ghost predicate TellsBlock(codec: Codec, d: Decoder, events: seq<Event>, block: Block, before: seq<ContentPart>) {
    var all := HandleAll(codec, d, events);
    all.decoder == Told(d, block) && !all.over && Tells(all.items, before, Push(before, PartOf(block)))
  }

  lemma HandleOne(codec: Codec, d: Decoder, event: Event)
    ensures HandleAll(codec, d, [event]) == Handle(codec, d, event)
  {
    var step := Handle(codec, d, event);
    assert step.items + [] == step.items;
  }

  lemma TellsTextBlock(codec: Codec, d: Decoder, block: Block, before: seq<ContentPart>)
    requires block.TextBlock? && d.state.pending == map[]
    ensures TellsBlock(codec, d, BlockSaid(block), block, before)
  {
    var first, pieces, last := [Said(block.opening)], PiecesSaid(block, block.pieces), [Closes(block.index)];
    var between := Push(before, Text(block.opening));
    var after := Push(between, Text(Concatenated(block.pieces)));
    HandleSaid(codec, d, block.opening, before);
    HandleOne(codec, d, first[0]);
    TextPiecesSaid(codec, d, block, block.pieces, between);
    HandleAllJoin(codec, d, first, pieces);
    TellsJoin(Handle(codec, d, first[0]).items, HandleAll(codec, d, pieces).items, before, between, after);
    HandleOne(codec, d, last[0]);
    assert Handle(codec, d, last[0]) == Handled([], d, false);
    HandleAllJoin(codec, d, first + pieces, last);
    var items := HandleAll(codec, d, first + pieces).items;
    assert items + [] == items;
    PushText(before, block.opening, Concatenated(block.pieces));
  }

  lemma TellsCallBlock(codec: Codec, d: Decoder, block: Block, before: seq<ContentPart>)
    requires block.CallBlock? && Streamable(codec, block) && d.state.pending == map[]
    ensures TellsBlock(codec, d, BlockSaid(block), block, before)
  {
    var first, pieces, last := [OpeningSaid(block)], PiecesSaid(block, block.pieces), [Closes(block.index)];
    var call := PendingCall(block.id, block.name, "");
    var spelt := call.(arguments := Concatenated(block.pieces));
    HandleOne(codec, d, first[0]);
    assert map[][block.index := call] == map[block.index := call];
    assert Handle(codec, d, first[0]) == Handled([], Holding(d, block.index, call), false);
    assert "" + Concatenated(block.pieces) == Concatenated(block.pieces);
    CallPiecesSaid(codec, d, block, block.pieces, call);
    HandleAllJoin(codec, d, first, pieces);
    assert HandleAll(codec, d, first + pieces) == Handled([], Holding(d, block.index, spelt), false);
    ClosesCall(codec, d, block, spelt, before);
    HandleOne(codec, Holding(d, block.index, spelt), last[0]);
    HandleAllJoin(codec, d, first + pieces, last);
    var items := Handle(codec, Holding(d, block.index, spelt), last[0]).items;
    assert [] + items == items;
  }

  lemma TellsOneBlock(codec: Codec, d: Decoder, block: Block, before: seq<ContentPart>)
    requires Streamable(codec, block) && d.state.pending == map[]
    ensures TellsBlock(codec, d, BlockSaid(block), block, before)
  {
    if block.TextBlock? {
      TellsTextBlock(codec, d, block, before);
    } else {
      TellsCallBlock(codec, d, block, before);
    }
  }

  // ---- The whole response ----

  function PartsOf(blocks: seq<Block>): (parts: seq<ContentPart>)
    ensures |parts| == |blocks| && forall i :: 0 <= i < |blocks| ==> parts[i] == PartOf(blocks[i])
  {
    if blocks == [] then [] else [PartOf(blocks[0])] + PartsOf(blocks[1..])
  }

  function BlockJsons(blocks: seq<Block>): seq<Json> {
    if blocks == [] then [] else [BlockJson(blocks[0])] + BlockJsons(blocks[1..])
  }

  lemma BlockConverts(block: Block)
    ensures ConvertBlock(BlockJson(block)) == Success(PartOf(block))
  {
  }

  lemma {:induction false} BlocksConvert(blocks: seq<Block>)
    ensures ConvertBlocks(BlockJsons(blocks)) == Success(PartsOf(blocks))
  {
    if blocks != [] {
      var rest := BlockJsons(blocks[1..]);
      assert ([BlockJson(blocks[0])] + rest)[1..] == rest;
      BlockConverts(blocks[0]);
      BlocksConvert(blocks[1..]);
    }
  }

  predicate AnyCall(blocks: seq<Block>) {
    exists i :: 0 <= i < |blocks| && blocks[i].CallBlock?
  }

  lemma AnyCallFirst(blocks: seq<Block>)
    requires blocks != []
    ensures AnyCall(blocks) <==> blocks[0].CallBlock? || AnyCall(blocks[1..])
  {
    if AnyCall(blocks) && !blocks[0].CallBlock? {
      var i :| 0 <= i < |blocks| && blocks[i].CallBlock?;
      assert blocks[1..][i - 1].CallBlock?;
    }
    if AnyCall(blocks[1..]) {
      var i :| 0 <= i < |blocks[1..]| && blocks[1..][i].CallBlock?;
      assert blocks[i + 1].CallBlock?;
    }
  }

  lemma {:induction false} TellsAllBlocks(codec: Codec, d: Decoder, blocks: seq<Block>, before: seq<ContentPart>)
    requires (forall i | 0 <= i < |blocks| :: Streamable(codec, blocks[i])) && d.state.pending == map[]
    ensures var all := HandleAll(codec, d, AllBlocksSaid(blocks));
            && all.decoder == d.(sawToolCall := d.sawToolCall || AnyCall(blocks)) && !all.over
            && Tells(all.items, before, Coalesce(before, PartsOf(blocks)))
    decreases |blocks|
  {
    if blocks != [] {
      var said, rest := BlockSaid(blocks[0]), AllBlocksSaid(blocks[1..]);
      TellsOneBlock(codec, d, blocks[0], before);
      var first := HandleAll(codec, d, said);
      var between := Push(before, PartOf(blocks[0]));
      TellsAllBlocks(codec, first.decoder, blocks[1..], between);
      HandleAllJoin(codec, d, said, rest);
      AnyCallFirst(blocks);
      var after := Coalesce(between, PartsOf(blocks[1..]));
      TellsJoin(first.items, HandleAll(codec, first.decoder, rest).items, before, between, after);
      assert PartsOf(blocks)[1..] == PartsOf(blocks[1..]);
    }
  }

  /** The usage told: closing figures replace opening ones unless they are zero. */
  function UsageTold(opening: Usage, closing: Usage): Option<Usage> {
    var input := if closing.inputTokens > 0 then closing.inputTokens else opening.inputTokens;
    var output := if closing.outputTokens > 0 then closing.outputTokens else opening.outputTokens;
    if input == 0 && output == 0 then None else Some(Usage(input, output))
  }

  function FinishTold(blocks: seq<Block>, reason: Option<string>): FinishReason {
    if AnyCall(blocks) then ToolCalls else MapStopReason(reason)
  }

  lemma AskedForTools(blocks: seq<Block>)
    ensures (exists part :: part in PartsOf(blocks) && part.Call?) <==> AnyCall(blocks)
  {
    if AnyCall(blocks) {
      var i :| 0 <= i < |blocks| && blocks[i].CallBlock?;
      assert PartsOf(blocks)[i] in PartsOf(blocks) && PartsOf(blocks)[i].Call?;
    }
  }

  /** The decoder at the end of the blocks. */
  function AtClose(blocks: seq<Block>, opening: Usage): Decoder {
    Decoder(StreamState(map[], opening.inputTokens, opening.outputTokens, None), AnyCall(blocks))
  }

  lemma ClosesResponse(codec: Codec, blocks: seq<Block>, reason: Option<string>, opening: Usage, closing: Usage)
    ensures var all := HandleAll(codec, AtClose(blocks, opening), [MessageDelta(reason, Some(closing)), MessageStop]);
            && all.over
            && all.items == [Yielded(Done(FinishTold(blocks, reason), UsageTold(opening, closing)))]
  {
    var d := AtClose(blocks, opening);
    var delta := Handle(codec, d, MessageDelta(reason, Some(closing)));
    HandleOne(codec, d, MessageDelta(reason, Some(closing)));
    HandleOne(codec, delta.decoder, MessageStop);
    HandleAllJoin(codec, d, [MessageDelta(reason, Some(closing))], [MessageStop]);
    assert [MessageDelta(reason, Some(closing))] + [MessageStop] == [MessageDelta(reason, Some(closing)), MessageStop];
  }

  /** What was streamed: everything but the end, and how it ended. */
  ghost predicate Streams(items: seq<Item>, content: seq<ContentPart>, finish: FinishReason, usage: Option<Usage>) {
    && items != [] && items[|items| - 1] == Yielded(Done(finish, usage))
    && Tells(items[..|items| - 1], [], Coalesce([], content))
  }

  /** The decoder once the response has begun. */
  function AtStart(opening: Usage): Decoder {
    Decoder(StreamState(map[], opening.inputTokens, opening.outputTokens, None), false)
  }

  lemma BeginsResponse(codec: Codec, opening: Usage, rest: seq<Event>)
    requires !HandleAll(codec, AtStart(opening), rest).over
    ensures HandleAll(codec, FRESH, [MessageStart(Some(opening))] + rest) == HandleAll(codec, AtStart(opening), rest)
  {
    HandleOne(codec, FRESH, MessageStart(Some(opening)));
    HandleAllJoin(codec, FRESH, [MessageStart(Some(opening))], rest);
    assert Handle(codec, FRESH, MessageStart(Some(opening))) == Handled([], AtStart(opening), false);
    var items := HandleAll(codec, AtStart(opening), rest).items;
    assert [] + items == items;
  }

  lemma StreamsToTheEnd(told: seq<Item>, content: seq<ContentPart>, finish: FinishReason, usage: Option<Usage>)
    requires Tells(told, [], Coalesce([], content))
    ensures Streams(told + [Yielded(Done(finish, usage))], content, finish, usage)
  {
    assert (told + [Yielded(Done(finish, usage))])[..|told|] == told;
  }

  lemma StreamsResponse(codec: Codec, blocks: seq<Block>, reason: Option<string>, opening: Usage, closing: Usage)
    requires forall i | 0 <= i < |blocks| :: Streamable(codec, blocks[i])
    ensures Streams(HandleAll(codec, FRESH, ResponseSaid(blocks, reason, opening, closing)).items, PartsOf(blocks),
                    FinishTold(blocks, reason), UsageTold(opening, closing))
  {
    var middle, last := AllBlocksSaid(blocks), [MessageDelta(reason, Some(closing)), MessageStop];
    TellsAllBlocks(codec, AtStart(opening), blocks, []);
    BeginsResponse(codec, opening, middle);
    HandleAllJoin(codec, FRESH, [MessageStart(Some(opening))] + middle, last);
    ClosesResponse(codec, blocks, reason, opening, closing);
    StreamsToTheEnd(HandleAll(codec, AtStart(opening), middle).items, PartsOf(blocks), FinishTold(blocks, reason),
                    UsageTold(opening, closing));
  }

  lemma WholeConverts(blocks: seq<Block>, reason: Option<string>, usage: Option<Usage>)
    ensures ConvertResponse(Body(BlockJsons(blocks), reason, usage))
         == Success(Response(Message(Assistant, PartsOf(blocks)), FinishTold(blocks, reason), usage))
  {
    BlocksConvert(blocks);
    AskedForTools(blocks);
  }

  lemma StreamsTheSameCalls(items: seq<Item>, content: seq<ContentPart>, finish: FinishReason, usage: Option<Usage>)
    requires Streams(items, content, finish, usage)
    ensures CallsIn(Parts(items[..|items| - 1])) == CallsIn(content)
  {
    var parts := Parts(items[..|items| - 1]);
    CoalesceKeepsCalls([], parts);
    CoalesceKeepsCalls([], content);
    assert [] + CallsIn(parts) == CallsIn(parts) && [] + CallsIn(content) == CallsIn(content);
  }

  lemma HeardAlike(codec: Codec, d: Decoder, events: seq<Event>, events': seq<Event>)
    requires Heard(events) == Heard(events')
    ensures HandleAll(codec, d, events) == HandleAll(codec, d, events')
  {
    OnlyTheHeardMatters(codec, d, events);
    OnlyTheHeardMatters(codec, d, events');
  }

  /** A block that cannot be converted whole cannot be streamed either: its opening fails, and with the
      same error. */
  lemma FailsTheSameBothWays(index: nat, block: Json)
    requires index <= U64_MAX
    ensures Read(StartEvent(index, block)).Fails? <==> ConvertBlock(block).Failure?
    ensures ConvertBlock(block).Failure? ==> Read(StartEvent(index, block)) == Fails(ConvertBlock(block).error)
  {
    ReadStart(index, block);
  }

  /** What was streamed says what the whole response says: the same content once coalesced, the same
      calls and the same finish reason, and nothing failed. */
  ghost predicate Agrees(items: seq<Item>, converted: Result<Response, Error>, usage: Option<Usage>) {
    match converted
    case Failure(_) => false
    case Success(whole) =>
      && Streams(items, whole.message.content, whole.finish, usage)
      && CallsIn(Parts(items[..|items| - 1])) == CallsIn(whole.message.content)
  }

  lemma StreamsAgree(items: seq<Item>, blocks: seq<Block>, reason: Option<string>, told: Option<Usage>,
                     usage: Option<Usage>)
    requires Streams(items, PartsOf(blocks), FinishTold(blocks, reason), told)
    ensures Agrees(items, ConvertResponse(Body(BlockJsons(blocks), reason, usage)), told)
  {
    WholeConverts(blocks, reason, usage);
    StreamsTheSameCalls(items, PartsOf(blocks), FinishTold(blocks, reason), told);
  }

  /** Streaming agrees with the whole response, however the text and arguments are cut and whatever
      pings come between. */
  lemma StreamingAgreesWithTheWhole(codec: Codec, blocks: seq<Block>, reason: Option<string>, opening: Usage,
                                    closing: Usage, events: seq<Event>, usage: Option<Usage>)
    requires (forall i | 0 <= i < |blocks| :: Streamable(codec, blocks[i])) && Countable(opening) && Countable(closing)
    requires Heard(events) == Heard(ReadAll(ResponseEvents(blocks, reason, opening, closing)))
    ensures Agrees(HandleAll(codec, FRESH, events).items, ConvertResponse(Body(BlockJsons(blocks), reason, usage)),
                   UsageTold(opening, closing))
  {
    ReadResponseEvents(codec, blocks, reason, opening, closing);
    HeardAlike(codec, FRESH, events, ResponseSaid(blocks, reason, opening, closing));
    StreamsResponse(codec, blocks, reason, opening, closing);
    StreamsAgree(HandleAll(codec, FRESH, events).items, blocks, reason, UsageTold(opening, closing), usage);
  }
}
