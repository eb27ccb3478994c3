/** What the decoder makes of events no well-formed response sends, how it measures what it holds, and what
    ends a stream early. */
module StreamFailures {
  import opened Wrappers
  import opened JsonValues
  import opened Conversation
  import opened StreamEvents
  import opened SseFraming
  import opened WireResponses
  import opened Words

  // ---- Events that fail or say nothing ----

  predicate HasType(event: Json, kind: string) {
    event.Object? && "type" in event.fields && event.fields["type"] == Str(kind)
  }

  /** A block's place in the response, when the event gives one. */
  predicate HasIndex(event: Json) {
    event.Object? && "index" in event.fields && event.fields["index"].Number?
    && 0 <= event.fields["index"].value <= U64_MAX
  }

  /** An error the API reports is the stream's last item, with the kind and words it was reported with. */
  lemma AnErrorEventEndsTheStream(codec: Codec, d: Decoder, kind: string, message: string)
    ensures var error := Object(map["type" := Str(kind), "message" := Str(message)]);
            var step := Handle(codec, d, Read(Object(map["type" := Str("error"), "error" := error])));
            step.items == [Failed(ApiError(kind, message))] && step.over
  {
    var error := Object(map["type" := Str(kind), "message" := Str(message)]);
    var event := Object(map["type" := Str("error"), "error" := error]);
    assert event.GetStr("type") == Some("error") && event.Get("error") == Some(error);
    assert error.GetStr("type") == Some(kind) && error.GetStr("message") == Some(message);
  }

  /** One that says neither is reported all the same. */
  lemma ABareErrorEndsTheStream(codec: Codec, d: Decoder)
    ensures var step := Handle(codec, d, Read(Object(map["type" := Str("error"), "error" := Object(map[])])));
            step.items == [Failed(ApiError("error", "the Anthropic API reported an error"))] && step.over
    ensures var step := Handle(codec, d, Read(Object(map["type" := Str("error")])));
            step.items == [Failed(ApiError("error", "the Anthropic API reported an error"))] && step.over
  {
    var told := Object(map["type" := Str("error"), "error" := Object(map[])]);
    assert told.GetStr("type") == Some("error") && told.Get("error") == Some(Object(map[]));
    var bare := Object(map["type" := Str("error")]);
    assert bare.GetStr("type") == Some("error") && bare.Get("error") == None && bare.GetStr("message") == None;
  }

  /** An event about a block says which, or ends the stream. */
  lemma ABlockEventNeedsAnIndex(codec: Codec, d: Decoder, event: Json)
    requires || HasType(event, "content_block_start") || HasType(event, "content_block_delta")
             || HasType(event, "content_block_stop")
    requires !HasIndex(event)
    ensures Handle(codec, d, Read(event)).items == [Failed(NoIndex)] && Handle(codec, d, Read(event)).over
  {
    assert event.GetU64("index") == None;
  }

  predicate HasText(value: Json, name: string) {
    value.Object? && name in value.fields && value.fields[name].Str?
  }

  /** A call opens with an id and a name, or ends the stream; opened, it has said nothing yet. */
  lemma ACallOpensWithItsIdAndName(codec: Codec, d: Decoder, event: Json)
    requires HasType(event, "content_block_start") && HasIndex(event)
    requires "content_block" in event.fields && HasType(event.fields["content_block"], "tool_use")
    ensures var block, step := event.fields["content_block"], Handle(codec, d, Read(event));
            if !HasText(block, "id") then step.items == [Failed(NoId)] && step.over
            else if !HasText(block, "name") then step.items == [Failed(NoName)] && step.over
            else
              && step.items == [] && !step.over
              && step.decoder.state.pending
                 == d.state.pending[event.fields["index"].value :=
                      PendingCall(block.fields["id"].text, block.fields["name"].text, "")]
  {
    var block := event.fields["content_block"];
    assert event.GetU64("index") == Some(event.fields["index"].value) && Member(event, "content_block") == block;
  }

  /** What is not known, and what has no kind at all, says nothing. */
  lemma AnUnknownEventSaysNothing(codec: Codec, d: Decoder, event: Json)
    requires HasText(event, "type") ==>
               event.fields["type"].text !in {"message_start", "content_block_start", "content_block_delta",
                                              "content_block_stop", "message_delta", "message_stop", "error"}
    ensures Handle(codec, d, Read(event)) == Handled([], d, false)
  {
    assert event.GetStr("type") == if HasText(event, "type") then Some(event.fields["type"].text) else None;
  }

  /** A line that carries data that is not JSON ends the stream; a line that carries none says nothing. */
  lemma ALineThatIsNotJsonEndsTheStream(wire: Wire, d: Decoder, payload: seq<byte>)
    requires wire.decode(payload) == None && (payload != [] ==> payload[|payload| - 1] != CR)
    ensures var step := Handle(wire.codec, d, EventOfLine(wire, DATA_FIELD + [SPACE] + payload));
            step.items == [Failed(NotJson)] && step.over
  {
    var line := DATA_FIELD + [SPACE] + payload;
    assert payload != [] ==> line[|line| - 1] == payload[|payload| - 1];
    assert WithoutCr(line) == line;
    EventDataReadsWhatFollows(payload);
  }

  // ---- Fragments ----

  /** A character's bytes in UTF-8, as section 3 of RFC 3629 lays them out. */
  function Encoded(c: char): seq<byte> {
    var n := c as int;
    if n < 0x80 then [n as byte]
    else if n < 0x800 then [(0xC0 + n / 0x40) as byte, (0x80 + n % 0x40) as byte]
    else if n < 0x1_0000 then
      [(0xE0 + n / 0x1000) as byte, (0x80 + n / 0x40 % 0x40) as byte, (0x80 + n % 0x40) as byte]
    else
      [(0xF0 + n / 0x4_0000) as byte, (0x80 + n / 0x1000 % 0x40) as byte, (0x80 + n / 0x40 % 0x40) as byte,
       (0x80 + n % 0x40) as byte]
  }

  function EncodedText(text: string): seq<byte> {
    if text == "" then [] else Encoded(text[0]) + EncodedText(text[1..])
  }

  /** What is measured is bytes. */
  lemma {:induction false} LengthIsInBytes(text: string)
    ensures Utf8Len(text) == |EncodedText(text)|
  {
    if text != "" {
      LengthIsInBytes(text[1..]);
    }
  }

  /** A fragment goes to the end of its block's arguments, up to four mebibytes of them; past that, or with no
      such block open, it ends the stream. */
  lemma AFragmentGoesToItsBlock(codec: Codec, d: Decoder, index: nat, text: string)
    ensures var step := Handle(codec, d, Fragment(index, text));
            if index !in d.state.pending then step.items == [Failed(NeverOpened)] && step.over
            else
              var call := d.state.pending[index];
              if |EncodedText(call.arguments)| + |EncodedText(text)| > 4 * 1024 * 1024 then
                step.items == [Failed(ArgumentsTooLong)] && step.over
              else
                && step.items == [] && !step.over
                && step.decoder
                   == d.(state := d.state.(pending :=
                           d.state.pending[index := call.(arguments := call.arguments + text)]))
  {
    LengthIsInBytes(text);
    if index in d.state.pending {
      LengthIsInBytes(d.state.pending[index].arguments);
    }
  }

  // ---- Closing ----

  /** Arguments with anything printed in them are parsed as they stand, or the stream ends. */
  lemma PrintedArgumentsAreParsed(codec: Codec, d: Decoder, index: nat, i: nat)
    requires index in d.state.pending && i < |d.state.pending[index].arguments|
    requires '!' <= d.state.pending[index].arguments[i] <= '~'
    ensures var call, step := d.state.pending[index], Handle(codec, d, Closes(index));
            && (codec.parse(call.arguments).None? ==> step.items == [Failed(BadArguments(call.name))] && step.over)
            && (codec.parse(call.arguments).Some? ==>
                  step.items == [Yielded(CallChunk(ToolCall(call.id, call.name, codec.parse(call.arguments).value)))])
  {
    assert !IsWhitespace(d.state.pending[index].arguments[i]);
  }

  /** Arguments of spaces, tabs and line ends, or of nothing, are an empty object, whatever a parser would say. */
  lemma BlankArgumentsAreEmpty(codec: Codec, d: Decoder, index: nat)
    requires index in d.state.pending
    requires forall c | c in d.state.pending[index].arguments :: c in {' ', '\t', '\n', '\r'}
    ensures var call, step := d.state.pending[index], Handle(codec, d, Closes(index));
            step.items == [Yielded(CallChunk(ToolCall(call.id, call.name, Object(map[]))))] && !step.over
  {
    var text := d.state.pending[index].arguments;
    forall i | 0 <= i < |text| ensures IsWhitespace(text[i]) {
      assert text[i] in text;
    }
  }

  // ---- Streams that are cut off ----

  lemma NothingBuffered(wire: Wire, d: Decoder)
    ensures Frame([]) == Framed([], []) && HandleAll(wire.codec, d, EventsOf(wire, [])) == Handled([], d, false)
  {
    FrameNone([]);
    assert EventsOf(wire, []) == [];
  }

  /** With nothing buffered, a cancellation, a deadline or a broken connection is the last item; and a
      connection that closes ends the stream with no last item, so with no finished response. */
  lemma CutOffStreamsDoNotFinish(wire: Wire, d: Decoder, error: Error, later: seq<Arrival>)
    ensures Listen(wire, [], d, [Interrupt(error)] + later) == [Failed(error)]
    ensures Listen(wire, [], d, []) == []
  {
    NothingBuffered(wire, d);
    assert [] + [Failed(error)] == [Failed(error)];
  }

  /** Up to four mebibytes may wait for their newline. */
  lemma TheBufferHoldsFourMebibytes(wire: Wire, d: Decoder, buffer: seq<byte>)
    requires NoNewline(buffer)
    ensures Listen(wire, buffer, d, []) == if |buffer| > 4 * 1024 * 1024 then [Failed(EventTooLarge)] else []
  {
    FrameNone(buffer);
    NothingBuffered(wire, d);
    assert [] + [Failed(EventTooLarge)] == [Failed(EventTooLarge)];
  }

  // ---- A block of a whole response ----

  /** A text block says its text, or nothing; a call has its id and name, or the response fails, and an empty
      object for an input not given; and any other block is kept as it came. */
  lemma ABlockConverts(block: Json)
    ensures HasType(block, "text") ==>
              ConvertBlock(block) == Success(Text(if HasText(block, "text") then block.fields["text"].text else ""))
    ensures HasType(block, "tool_use") ==>
              ConvertBlock(block)
              == if !HasText(block, "id") then Failure(NoId)
                 else if !HasText(block, "name") then Failure(NoName)
                 else Success(Call(ToolCall(block.fields["id"].text, block.fields["name"].text,
                                            if "input" in block.fields then block.fields["input"] else Object(map[]))))
    ensures !HasType(block, "text") && !HasType(block, "tool_use") ==> ConvertBlock(block) == Success(Other(block))
  {
  }
}
