/** Why a response ended, told whole and told streamed. */
module FinishReasons {
  import opened Wrappers
  import opened Joining
  import opened JsonValues
  import opened Conversation
  import opened StreamEvents
  import opened SseFraming
  import opened WireResponses
  import opened StreamAgreement
  import opened StreamEndToEnd

  /** What a stop reason comes to: calls to be made, whatever else was said; cut short at the limit; refused;
      or an ordinary stop, any reason not known being one. */
  ghost predicate FinishesAs(reason: Option<string>, asked: bool, finish: FinishReason) {
    && (asked ==> finish == ToolCalls)
    && (!asked && reason == Some("max_tokens") ==> finish == Length)
    && (!asked && reason == Some("tool_use") ==> finish == ToolCalls)
    && (!asked && reason == Some("refusal") ==> finish == Filtered)
    && (!asked && reason !in {Some("max_tokens"), Some("tool_use"), Some("refusal")} ==> finish == Stop)
  }

  predicate AsksForTools(content: seq<ContentPart>) {
    exists i :: 0 <= i < |content| && content[i].Call?
  }

  /** Whole. */
  lemma WholeFinishesAs(body: Body)
    requires ConvertResponse(body).Success?
    ensures var response := ConvertResponse(body).value;
            FinishesAs(body.stopReason, AsksForTools(response.message.content), response.finish)
  {
    var content := ConvertResponse(body).value.message.content;
    if part :| part in content && part.Call? {
      var i :| 0 <= i < |content| && content[i] == part;
    }
  }

  // ---- Streamed ----

  /** The last stop reason a stream has given. */
  function LastReason(events: seq<Event>): Option<string> {
    if events == [] then None
    else
      var last := events[|events| - 1];
      if last.MessageDelta? && last.reason.Some? then last.reason else LastReason(events[..|events| - 1])
  }

  predicate YieldsACall(items: seq<Item>) {
    exists i :: 0 <= i < |items| && items[i].Yielded? && items[i].chunk.CallChunk?
  }

  lemma YieldsACallJoin(a: seq<Item>, b: seq<Item>)
    ensures YieldsACall(a + b) <==> YieldsACall(a) || YieldsACall(b)
  {
    if YieldsACall(a) {
      var i :| 0 <= i < |a| && a[i].Yielded? && a[i].chunk.CallChunk?;
      assert (a + b)[i] == a[i];
    }
    if YieldsACall(b) {
      var i :| 0 <= i < |b| && b[i].Yielded? && b[i].chunk.CallChunk?;
      assert (a + b)[|a| + i] == b[i];
    }
  }

  lemma StepKeepsReason(codec: Codec, d: Decoder, event: Event)
    requires !Handle(codec, d, event).over
    ensures var step := Handle(codec, d, event);
            && step.decoder.state.stopReason
               == (if event.MessageDelta? && event.reason.Some? then event.reason else d.state.stopReason)
            && (step.decoder.sawToolCall <==> d.sawToolCall || YieldsACall(step.items))
  {
    var step := Handle(codec, d, event);
    if event.Closes? && event.index in d.state.pending {
      assert step.items[0].Yielded? && step.items[0].chunk.CallChunk?;
    }
  }

  lemma {:induction false} KeepsTheLastReason(codec: Codec, events: seq<Event>)
    requires !HandleAll(codec, FRESH, events).over
    ensures var handled := HandleAll(codec, FRESH, events);
            && handled.decoder.state.stopReason == LastReason(events)
            && (handled.decoder.sawToolCall <==> YieldsACall(handled.items))
  {
    if events != [] {
      var front, last := events[..|events| - 1], events[|events| - 1];
      assert events == front + [last];
      StillRunning(codec, FRESH, front, last);
      KeepsTheLastReason(codec, front);
      HandleAllSnoc(codec, FRESH, front, last);
      var before := HandleAll(codec, FRESH, front);
      StepKeepsReason(codec, before.decoder, last);
      YieldsACallJoin(before.items, Handle(codec, before.decoder, last).items);
    }
  }

  /** Streamed: whatever came before, a stream that stops finishes as its last stop reason says, unless it
      has yielded a call. */
  lemma StreamFinishesAs(codec: Codec, events: seq<Event>)
    requires !HandleAll(codec, FRESH, events).over
    ensures var items := HandleAll(codec, FRESH, events + [MessageStop]).items;
            && items != [] && items[|items| - 1].Yielded? && items[|items| - 1].chunk.Done?
            && FinishesAs(LastReason(events), YieldsACall(HandleAll(codec, FRESH, events).items),
                          items[|items| - 1].chunk.finish)
  {
    KeepsTheLastReason(codec, events);
    HandleAllSnoc(codec, FRESH, events, MessageStop);
  }

  /** From the bytes: a response with no call, written as server-sent events and cut anywhere, ends with the
      finish its stop reason names. */
  lemma StreamedBytesFinishAs(wire: Wire, write: Json -> seq<byte>, name: seq<byte>, blocks: seq<Block>,
                              reason: Option<string>, opening: Usage, closing: Usage, chunks: seq<seq<byte>>)
    requires Writes(wire, write) && NoNewline(name)
    requires forall i | 0 <= i < |blocks| :: Streamable(wire.codec, blocks[i])
    requires Countable(opening) && Countable(closing)
    requires Concatenated(chunks)
          == Unframed(StreamLines(write, name, ResponseEvents(blocks, reason, opening, closing)))
    requires LinesFit(Concatenated(chunks))
    ensures var items := SseChunks(wire, Bytewise(chunks));
            && items != [] && items[|items| - 1].Yielded? && items[|items| - 1].chunk.Done?
            && FinishesAs(reason, exists i :: 0 <= i < |blocks| && blocks[i].CallBlock?,
                          items[|items| - 1].chunk.finish)
  {
    StreamedBytesReadAsTheWhole(wire, write, name, blocks, reason, opening, closing, None, chunks);
    WholeConverts(blocks, reason, None);
    WholeFinishesAs(Body(BlockJsons(blocks), reason, None));
    CallsAreAsked(blocks);
  }

  lemma CallsAreAsked(blocks: seq<Block>)
    ensures AsksForTools(PartsOf(blocks)) <==> exists i :: 0 <= i < |blocks| && blocks[i].CallBlock?
  {
    if i :| 0 <= i < |blocks| && blocks[i].CallBlock? {
      assert PartsOf(blocks)[i].Call?;
    }
    if i :| 0 <= i < |PartsOf(blocks)| && PartsOf(blocks)[i].Call? {
      assert blocks[i].CallBlock?;
    }
  }
}
