/** From the bytes of a streamed response to its content: framing, reading and reassembly together. */
module StreamEndToEnd {
  import opened Wrappers
  import opened Joining
  import opened JsonValues
  import opened StreamEvents
  import opened SseFraming
  import opened WireResponses
  import opened StreamAgreement
  import opened Words

  /** How a server writes an event's JSON: on one line, and so that it reads back. */
  ghost predicate Writes(wire: Wire, write: Json -> seq<byte>) {
    forall json :: && NoNewline(write(json)) && !(write(json) != [] && write(json)[|write(json)| - 1] == CR)
                   && wire.decode(write(json)) == Some(json)
  }

  /** "event:" */
  const EVENT_FIELD: seq<byte> := [101, 118, 101, 110, 116, 58]

  /** The lines of one event: its name, its data, and the blank line that ends it. */
  function EventLines(write: Json -> seq<byte>, name: seq<byte>, json: Json): seq<seq<byte>> {
    [EVENT_FIELD + name, DATA_FIELD + [SPACE] + write(json), []]
  }

  function StreamLines(write: Json -> seq<byte>, name: seq<byte>, events: seq<Json>): seq<seq<byte>> {
    if events == [] then [] else EventLines(write, name, events[0]) + StreamLines(write, name, events[1..])
  }

  lemma DataLineReads(wire: Wire, write: Json -> seq<byte>, json: Json)
    requires Writes(wire, write)
    ensures EventOfLine(wire, DATA_FIELD + [SPACE] + write(json)) == Read(json)
  {
    var line := DATA_FIELD + [SPACE] + write(json);
    assert write(json) != [] ==> line[|line| - 1] == write(json)[|write(json)| - 1];
    assert WithoutCr(line) == line;
    EventDataReadsWhatFollows(write(json));
  }

  lemma OtherLinesAreIgnored(wire: Wire, name: seq<byte>)
    ensures EventOfLine(wire, EVENT_FIELD + name) == Ignored
    ensures EventOfLine(wire, []) == Ignored
  {
    var line := WithoutCr(EVENT_FIELD + name);
    assert line[0] == EVENT_FIELD[0] && EVENT_FIELD[0] != DATA_FIELD[0];
  }

  lemma {:induction false} HeardJoin(a: seq<Event>, b: seq<Event>)
    ensures Heard(a + b) == Heard(a) + Heard(b)
  {
    if a == [] {
      assert a + b == b;
    } else {
      assert (a + b)[1..] == a[1..] + b;
      HeardJoin(a[1..], b);
    }
  }

  lemma HeardFirst(event: Event, rest: seq<Event>)
    ensures Heard([event] + rest) == (if event == Ignored then [] else [event]) + Heard(rest)
  {
    assert ([event] + rest)[1..] == rest;
  }

  lemma EventLinesSay(wire: Wire, write: Json -> seq<byte>, name: seq<byte>, json: Json)
    requires Writes(wire, write)
    ensures Heard(EventsOf(wire, EventLines(write, name, json))) == Heard([Read(json)])
  {
    DataLineReads(wire, write, json);
    OtherLinesAreIgnored(wire, name);
    assert EventsOf(wire, EventLines(write, name, json)) == [Ignored] + ([Read(json)] + [Ignored]);
    HeardFirst(Ignored, [Read(json)] + [Ignored]);
    HeardJoin([Read(json)], [Ignored]);
    HeardFirst(Ignored, []);
    assert [Ignored] + [] == [Ignored] && Heard([]) == [];
  }

  /** The lines written for events say what the events say. */
  lemma {:induction false} StreamLinesSay(wire: Wire, write: Json -> seq<byte>, name: seq<byte>, events: seq<Json>)
    requires Writes(wire, write)
    ensures Heard(EventsOf(wire, StreamLines(write, name, events))) == Heard(ReadAll(events))
    decreases |events|
  {
    if events != [] {
      var first, rest := EventLines(write, name, events[0]), StreamLines(write, name, events[1..]);
      EventsOfJoin(wire, first, rest);
      HeardJoin(EventsOf(wire, first), EventsOf(wire, rest));
      EventLinesSay(wire, write, name, events[0]);
      StreamLinesSay(wire, write, name, events[1..]);
      assert ReadAll(events) == [Read(events[0])] + ReadAll(events[1..]);
      HeardJoin([Read(events[0])], ReadAll(events[1..]));
    } else {
      assert EventsOf(wire, []) == [] && ReadAll(events) == [];
    }
  }

  lemma {:induction false} StreamLinesFrame(wire: Wire, write: Json -> seq<byte>, name: seq<byte>, events: seq<Json>)
    requires Writes(wire, write) && NoNewline(name)
    ensures forall i | 0 <= i < |StreamLines(write, name, events)| :: NoNewline(StreamLines(write, name, events)[i])
    decreases |events|
  {
    if events != [] {
      StreamLinesFrame(wire, write, name, events[1..]);
      assert forall i | 0 <= i < 3 :: NoNewline(EventLines(write, name, events[0])[i]);
    }
  }

  /** A response written as server-sent events and cut into chunks anywhere reads as the response
      converted whole, so long as each line fits in the buffer. */
  lemma StreamedBytesReadAsTheWhole(wire: Wire, write: Json -> seq<byte>, name: seq<byte>, blocks: seq<Block>,
                                    reason: Option<string>, opening: Usage, closing: Usage, usage: Option<Usage>,
                                    chunks: seq<seq<byte>>)
    requires Writes(wire, write) && NoNewline(name)
    requires forall i | 0 <= i < |blocks| :: Streamable(wire.codec, blocks[i])
    requires Countable(opening) && Countable(closing)
    requires Concatenated(chunks)
          == Unframed(StreamLines(write, name, ResponseEvents(blocks, reason, opening, closing)))
    requires LinesFit(Concatenated(chunks))
    ensures Agrees(SseChunks(wire, Bytewise(chunks)), ConvertResponse(Body(BlockJsons(blocks), reason, usage)),
                   UsageTold(opening, closing))
  {
    var events := ResponseEvents(blocks, reason, opening, closing);
    var lines := StreamLines(write, name, events);
    var bytes := Concatenated(chunks);
    assert [] + bytes == bytes;
    ListenIndependent(wire, [], FRESH, chunks);
    StreamLinesFrame(wire, write, name, events);
    assert Unframed(lines) + [] == Unframed(lines);
    FrameUnframed(lines, []);
    assert SseChunks(wire, Bytewise(chunks)) == HandleAll(wire.codec, FRESH, EventsOf(wire, lines)).items;
    StreamLinesSay(wire, write, name, events);
    StreamingAgreesWithTheWhole(wire.codec, blocks, reason, opening, closing, EventsOf(wire, lines), usage);
  }

  /** How inputs are printed: so that they read back, and never as nothing but white space. */
  ghost predicate Prints(codec: Codec, printing: Json -> string) {
    forall input :: codec.parse(printing(input)) == Some(input) && !IsBlank(printing(input))
  }

  /** A call's fragments are its printed input, cut anywhere. */
  predicate FragmentsOfPrinting(printing: Json -> string, block: Block) {
    && block.index <= U64_MAX
    && (block.CallBlock? ==>
          Concatenated(block.pieces) == printing(block.input) && Utf8Len(printing(block.input)) <= MAX_TOOL_INPUT_BYTES)
  }

  /** The same of a server that streams each call's input as printed, cut into fragments anywhere. */
  lemma PrintedResponsesReadAsTheWhole(wire: Wire, write: Json -> seq<byte>, printing: Json -> string, name: seq<byte>,
                                       blocks: seq<Block>, reason: Option<string>, opening: Usage, closing: Usage,
                                       usage: Option<Usage>, chunks: seq<seq<byte>>)
    requires Writes(wire, write) && NoNewline(name) && Prints(wire.codec, printing)
    requires forall i | 0 <= i < |blocks| :: FragmentsOfPrinting(printing, blocks[i])
    requires Countable(opening) && Countable(closing)
    requires Concatenated(chunks)
          == Unframed(StreamLines(write, name, ResponseEvents(blocks, reason, opening, closing)))
    requires LinesFit(Concatenated(chunks))
    ensures Agrees(SseChunks(wire, Bytewise(chunks)), ConvertResponse(Body(BlockJsons(blocks), reason, usage)),
                   UsageTold(opening, closing))
  {
    forall i | 0 <= i < |blocks| ensures Streamable(wire.codec, blocks[i]) {
      if blocks[i].CallBlock? {
        PrintedInputSpellsIt(wire.codec, printing, blocks[i].input, blocks[i].pieces);
      }
    }
    StreamedBytesReadAsTheWhole(wire, write, name, blocks, reason, opening, closing, usage, chunks);
  }
}
