/** The byte side of the streaming decoder: arrivals split into lines, lines into events, and how the
    stream ends. */
module SseFraming {
  import opened Wrappers
  import opened Joining
  import opened JsonValues
  import opened StreamEvents

  /** The most a single event may occupy before the stream is abandoned. */
  const MAX_EVENT_BYTES: nat := 4 * 1024 * 1024

  newtype byte = n: int | 0 <= n < 256

  const LF: byte := 10
  const CR: byte := 13
  const SPACE: byte := 32

  /** "data:" */
  const DATA_FIELD: seq<byte> := [100, 97, 116, 97, 58]

  datatype Wire = Wire(codec: Codec, decode: seq<byte> -> Option<Json>)

  // ---- Lines ----

  /** The payload of a data line; nothing for any other line. */
  function EventData(line: seq<byte>): Option<seq<byte>> {
    if !(DATA_FIELD <= line) then None
    else
      var rest := line[|DATA_FIELD|..];
      Some(if rest != [] && rest[0] == SPACE then rest[1..] else rest)
  }

  /** A data line with or without the optional space carries the same payload. */
  lemma EventDataReadsWhatFollows(payload: seq<byte>)
    ensures EventData(DATA_FIELD + [SPACE] + payload) == Some(payload)
    ensures payload == [] || payload[0] != SPACE ==> EventData(DATA_FIELD + payload) == Some(payload)
  {
    assert DATA_FIELD <= DATA_FIELD + [SPACE] + payload && DATA_FIELD <= DATA_FIELD + payload;
    assert (DATA_FIELD + [SPACE] + payload)[|DATA_FIELD|..] == [SPACE] + payload;
    assert (DATA_FIELD + payload)[|DATA_FIELD|..] == payload;
  }

  function WithoutCr(line: seq<byte>): seq<byte> {
    if line != [] && line[|line| - 1] == CR then line[..|line| - 1] else line
  }

  /** What a line says: an event, bytes that are not JSON, or nothing. */
  function EventOfLine(wire: Wire, line: seq<byte>): Event {
    match EventData(WithoutCr(line))
    case None => Ignored
    case Some(data) =>
      match wire.decode(data)
      case None => Fails(NotJson)
      case Some(json) => Read(json)
  }

  /** Where the first newline is, or the length when there is none. */
  function FirstNewline(bytes: seq<byte>): (position: nat)
    ensures position <= |bytes|
    ensures position < |bytes| ==> bytes[position] == LF
    ensures forall i | 0 <= i < position :: bytes[i] != LF
  {
    NewlineFrom(bytes, 0)
  }

  function NewlineFrom(bytes: seq<byte>, from: nat): (position: nat)
    requires from <= |bytes|
    ensures from <= position <= |bytes|
    ensures position < |bytes| ==> bytes[position] == LF
    ensures forall i | from <= i < position :: bytes[i] != LF
    decreases |bytes| - from
  {
    if from == |bytes| || bytes[from] == LF then from else NewlineFrom(bytes, from + 1)
  }

  lemma FirstNewlineIs(bytes: seq<byte>, position: nat)
    requires position <= |bytes| && forall i | 0 <= i < position :: bytes[i] != LF
    requires position < |bytes| ==> bytes[position] == LF
    ensures FirstNewline(bytes) == position
  {
  }

  /** The lines of `bytes` that end in a newline, without it, and what is left after the last. */
  datatype Framed = Framed(lines: seq<seq<byte>>, rest: seq<byte>)

  function Frame(bytes: seq<byte>): Framed
    decreases |bytes|
  {
    var position := FirstNewline(bytes);
    if position == |bytes| then Framed([], bytes)
    else
      var after := Frame(bytes[position + 1..]);
      Framed([bytes[..position]] + after.lines, after.rest)
  }

  /** Framing loses nothing: the lines with their newlines, and the rest, are the bytes. */
  function Unframed(lines: seq<seq<byte>>): seq<byte> {
    if lines == [] then [] else lines[0] + [LF] + Unframed(lines[1..])
  }

  predicate NoNewline(bytes: seq<byte>) {
    forall i | 0 <= i < |bytes| :: bytes[i] != LF
  }

  /** A newline splits the bytes at the first one. */
  lemma SplitAtNewline(bytes: seq<byte>)
    ensures FirstNewline(bytes) == |bytes| ==> NoNewline(bytes)
    ensures FirstNewline(bytes) < |bytes| ==> NoNewline(bytes[..FirstNewline(bytes)])
    ensures FirstNewline(bytes) < |bytes| ==>
              bytes == bytes[..FirstNewline(bytes)] + [LF] + bytes[FirstNewline(bytes) + 1..]
  {
    var position := FirstNewline(bytes);
    if position < |bytes| {
      SplitAround(bytes, position);
    }
  }

  lemma FrameNone(bytes: seq<byte>)
    requires NoNewline(bytes)
    ensures Frame(bytes) == Framed([], bytes)
  {
    FirstNewlineIs(bytes, |bytes|);
  }

  lemma FrameFirst(line: seq<byte>, tail: seq<byte>)
    requires NoNewline(line)
    ensures Frame(line + [LF] + tail) == Framed([line] + Frame(tail).lines, Frame(tail).rest)
  {
    var bytes := line + [LF] + tail;
    FirstNewlineIs(bytes, |line|);
    assert bytes[..|line|] == line && bytes[|line| + 1..] == tail;
  }

  lemma {:induction false} FrameLosesNothing(bytes: seq<byte>)
    ensures Unframed(Frame(bytes).lines) + Frame(bytes).rest == bytes
    ensures forall i | 0 <= i < |Frame(bytes).lines| :: NoNewline(Frame(bytes).lines[i])
    ensures NoNewline(Frame(bytes).rest)
    decreases |bytes|
  {
    var position := FirstNewline(bytes);
    SplitAtNewline(bytes);
    if position < |bytes| {
      var line, tail := bytes[..position], bytes[position + 1..];
      FrameLosesNothing(tail);
      FrameFirst(line, tail);
      UnframedFirst(line, Frame(tail).lines);
      JoinAssociates(line + [LF], Unframed(Frame(tail).lines), Frame(tail).rest);
    } else {
      assert [] + bytes == bytes;
    }
  }

  lemma UnframedFirst(line: seq<byte>, lines: seq<seq<byte>>)
    ensures Unframed([line] + lines) == line + [LF] + Unframed(lines)
  {
    assert ([line] + lines)[1..] == lines;
  }

  /** Framing more bytes frames what was left over with them, and changes no line already framed. */
  lemma {:induction false} FrameJoin(a: seq<byte>, b: seq<byte>)
    ensures Frame(a + b).lines == Frame(a).lines + Frame(Frame(a).rest + b).lines
    ensures Frame(a + b).rest == Frame(Frame(a).rest + b).rest
    decreases |a|
  {
    var position := FirstNewline(a);
    SplitAtNewline(a);
    if position == |a| {
      FrameNone(a);
      assert [] + Frame(a + b).lines == Frame(a + b).lines;
    } else {
      var line, tail := a[..position], a[position + 1..];
      FrameJoin(tail, b);
      FrameFirst(line, tail);
      FrameFirst(line, tail + b);
      JoinAssociates(line + [LF], tail, b);
      JoinAssociates([line], Frame(tail).lines, Frame(Frame(tail).rest + b).lines);
    }
  }

  function EventsOf(wire: Wire, lines: seq<seq<byte>>): (events: seq<Event>)
    ensures |events| == |lines| && forall i :: 0 <= i < |lines| ==> events[i] == EventOfLine(wire, lines[i])
  {
    seq(|lines|, i requires 0 <= i < |lines| => EventOfLine(wire, lines[i]))
  }

  // ---- Arrivals ----

  /** What each wait for the peer brings; the connection closes after the last. */
  datatype Arrival = Bytes(bytes: seq<byte>) | Interrupt(error: Error)

  /** The items yielded from a buffer on, as arrivals come in. */
  function Listen(wire: Wire, buffer: seq<byte>, d: Decoder, arrivals: seq<Arrival>): seq<Item>
    decreases |arrivals|, 1
  {
    var framed := Frame(buffer);
    var handled := HandleAll(wire.codec, d, EventsOf(wire, framed.lines));
    handled.items + ListenAfter(wire, handled, framed.rest, arrivals)
  }

  /** The items that follow once the complete lines are handled and `rest` is left. */
  function ListenAfter(wire: Wire, handled: Handled, rest: seq<byte>, arrivals: seq<Arrival>): seq<Item>
    decreases |arrivals|, 0
  {
    if handled.over then []
    else if |rest| > MAX_EVENT_BYTES then [Failed(EventTooLarge)]
    else if arrivals == [] then []
    else
      match arrivals[0]
      case Interrupt(error) => [Failed(error)]
      case Bytes(bytes) => Listen(wire, rest + bytes, handled.decoder, arrivals[1..])
  }

  function SseChunks(wire: Wire, arrivals: seq<Arrival>): seq<Item> {
    Listen(wire, [], FRESH, arrivals)
  }

  // ---- The loops, step by step ----

  function Prefixed(items: seq<Item>, handled: Handled): Handled {
    handled.(items := items + handled.items)
  }

  /** Draining has yielded `items` so far: handling what the buffer still frames completes `whole`. */
  ghost predicate Draining(wire: Wire, whole: Handled, rest: seq<byte>, d: Decoder, buffer: seq<byte>,
                           items: seq<Item>)
  {
    && whole == Prefixed(items, HandleAll(wire.codec, d, EventsOf(wire, Frame(buffer).lines)))
    && Frame(buffer).rest == rest
  }

  lemma DrainStarts(wire: Wire, whole: Handled, rest: seq<byte>, d: Decoder, buffer: seq<byte>)
    requires whole == HandleAll(wire.codec, d, EventsOf(wire, Frame(buffer).lines)) && rest == Frame(buffer).rest
    ensures Draining(wire, whole, rest, d, buffer, [])
  {
    assert [] + whole.items == whole.items;
  }

  lemma EventsOfFirst(wire: Wire, line: seq<byte>, lines: seq<seq<byte>>)
    ensures EventsOf(wire, [line] + lines) == [EventOfLine(wire, line)] + EventsOf(wire, lines)
  {
    EventsOfJoin(wire, [line], lines);
    assert EventsOf(wire, [line]) == [EventOfLine(wire, line)];
  }

  lemma HandleFirst(codec: Codec, d: Decoder, event: Event, rest: seq<Event>)
    ensures var step := Handle(codec, d, event);
            HandleAll(codec, d, [event] + rest)
            == if step.over then step else Prefixed(step.items, HandleAll(codec, step.decoder, rest))
  {
    assert ([event] + rest)[1..] == rest;
  }

  lemma PrefixedTwice(first: seq<Item>, second: seq<Item>, handled: Handled)
    ensures Prefixed(first, Prefixed(second, handled)) == Prefixed(first + second, handled)
  {
    JoinAssociates(first, second, handled.items);
  }

  lemma DrainSteps(wire: Wire, whole: Handled, rest: seq<byte>, d: Decoder, buffer: seq<byte>, items: seq<Item>,
                   line: seq<byte>, tail: seq<byte>, step: Handled)
    requires Draining(wire, whole, rest, d, buffer, items)
    requires NoNewline(line) && buffer == line + [LF] + tail && step == Handle(wire.codec, d, EventOfLine(wire, line))
    ensures step.over ==> whole == Prefixed(items, step)
    ensures !step.over ==> Draining(wire, whole, rest, step.decoder, tail, items + step.items)
  {
    FrameFirst(line, tail);
    EventsOfFirst(wire, line, Frame(tail).lines);
    HandleFirst(wire.codec, d, EventOfLine(wire, line), EventsOf(wire, Frame(tail).lines));
    if !step.over {
      PrefixedTwice(items, step.items, HandleAll(wire.codec, step.decoder, EventsOf(wire, Frame(tail).lines)));
    }
  }

  lemma DrainEnds(wire: Wire, whole: Handled, rest: seq<byte>, d: Decoder, buffer: seq<byte>, items: seq<Item>)
    requires Draining(wire, whole, rest, d, buffer, items) && NoNewline(buffer)
    ensures whole == Handled(items, d, false) && buffer == rest
  {
    FrameNone(buffer);
    assert EventsOf(wire, []) == [];
    assert items + [] == items;
  }

  /** Listening from the start has reached this buffer and decoder after `i` arrivals, yielding `items`. */
  ghost predicate Listening(wire: Wire, all: seq<Item>, buffer: seq<byte>, d: Decoder, arrivals: seq<Arrival>,
                            items: seq<Item>, i: nat)
  {
    i <= |arrivals| && all == items + Listen(wire, buffer, d, arrivals[i..])
  }

  lemma ListenSteps(wire: Wire, all: seq<Item>, buffer: seq<byte>, d: Decoder, arrivals: seq<Arrival>,
                    items: seq<Item>, i: nat)
    requires Listening(wire, all, buffer, d, arrivals, items, i)
    ensures var framed := Frame(buffer);
            var handled := HandleAll(wire.codec, d, EventsOf(wire, framed.lines));
            ListenedOn(wire, all, items + handled.items, handled, framed.rest, arrivals, i)
  {
    var framed := Frame(buffer);
    var handled := HandleAll(wire.codec, d, EventsOf(wire, framed.lines));
    JoinAssociates(items, handled.items, ListenAfter(wire, handled, framed.rest, arrivals[i..]));
    assert i < |arrivals| ==> arrivals[i..][0] == arrivals[i] && arrivals[i..][1..] == arrivals[i + 1..];
  }

  /** Where `seen` stands once the complete lines are handled and `rest` is left. */
  ghost predicate ListenedOn(wire: Wire, all: seq<Item>, seen: seq<Item>, handled: Handled, rest: seq<byte>,
                             arrivals: seq<Arrival>, i: nat)
    requires i <= |arrivals|
  {
    && (handled.over || (|rest| <= MAX_EVENT_BYTES && i == |arrivals|) ==> all == seen)
    && (!handled.over && |rest| > MAX_EVENT_BYTES ==> all == seen + [Failed(EventTooLarge)])
    && (!handled.over && |rest| <= MAX_EVENT_BYTES && i < |arrivals| ==>
          match arrivals[i]
          case Interrupt(error) => all == seen + [Failed(error)]
          case Bytes(bytes) => Listening(wire, all, rest + bytes, handled.decoder, arrivals, seen, i + 1))
  }

  /** The decoder's loop: drain the lines there are, then wait for more. */
  class SseStream {
    const wire: Wire
    var buffer: seq<byte>
    var state: Reassembly
    var sawToolCall: bool

    ghost function Decoder(): Decoder
      reads this, state
    {
      StreamEvents.Decoder.Decoder(state.State(), sawToolCall)
    }

    constructor (wire: Wire)
      ensures buffer == [] && Decoder() == FRESH && this.wire == wire && fresh(state)
    {
      this.wire := wire;
      buffer, sawToolCall := [], false;
      state := new Reassembly();
    }

    /** One line, taken off the front of the buffer. */
    method TakeLine(position: nat) returns (line: seq<byte>)
      requires position < |buffer| && position == FirstNewline(buffer)
      modifies this`buffer
      ensures line == WithoutCr(old(buffer)[..position]) && buffer == old(buffer)[position + 1..]
    {
      line := buffer[..position + 1];
      buffer := buffer[position + 1..];
      line := line[..|line| - 1];
      if line != [] && line[|line| - 1] == CR {
        line := line[..|line| - 1];
      }
    }

    /** Handles one line; `over` when nothing more is to be read. */
    method HandleLine(ghost raw: seq<byte>, line: seq<byte>) returns (items: seq<Item>, over: bool)
      requires line == WithoutCr(raw)
      modifies this`sawToolCall, state
      ensures state == old(state)
      ensures Handled(items, Decoder(), over)
           == Handle(wire.codec, old(Decoder()), EventOfLine(wire, raw))
    {
      var data := EventData(line);
      if data.None? {
        return [], false;
      }
      var json := wire.decode(data.value);
      if json.None? {
        return [Failed(NotJson)], true;
      }
      var step := state.FoldIn(wire.codec, json.value);
      match step {
        case Failure(error) =>
          return [Failed(error)], true;
        case Success(End) =>
          var read := StreamState(state.pending, state.inputTokens, state.outputTokens, state.stopReason);
          var finish := FinishOf(read, sawToolCall);
          var usage := StateUsage(StreamState(state.pending, state.inputTokens, state.outputTokens, state.stopReason));
          return [Yielded(Done(finish, usage))], true;
        case Success(Continue) =>
          return [], false;
        case Success(Emit(chunks)) =>
          items := [];
          for i := 0 to |chunks|
            invariant items == Items(chunks[..i])
            invariant sawToolCall == (old(sawToolCall) || exists c :: c in chunks[..i] && c.CallChunk?)
            invariant state == old(state) && state.State() == Apply(wire.codec, old(state.State()), Read(json.value)).0
          {
            assert chunks[..i + 1] == chunks[..i] + [chunks[i]];
            sawToolCall := sawToolCall || chunks[i].CallChunk?;
            items := items + [Yielded(chunks[i])];
          }
          assert chunks[..|chunks|] == chunks;
          return items, false;
      }
    }

    /** Handles every complete line in the buffer, stopping early when one ends the stream. */
    method Drain() returns (items: seq<Item>, over: bool)
      modifies this`buffer, this`sawToolCall, state
      ensures state == old(state)
      ensures var framed := Frame(old(buffer));
              && Handled(items, Decoder(), over)
                 == HandleAll(wire.codec, old(Decoder()), EventsOf(wire, framed.lines))
              && (!over ==> buffer == framed.rest)
    {
      items, over := [], false;
      ghost var rest := Frame(buffer).rest;
      ghost var whole := HandleAll(wire.codec, Decoder(), EventsOf(wire, Frame(buffer).lines));
      DrainStarts(wire, whole, rest, Decoder(), buffer);
      while FirstNewline(buffer) < |buffer|
        invariant state == old(state) && !over
        invariant Draining(wire, whole, rest, Decoder(), buffer, items)
        decreases |buffer|
      {
        var position := FirstNewline(buffer);
        SplitAtNewline(buffer);
        ghost var raw, tail, d := buffer[..position], buffer[position + 1..], Decoder();
        DrainSteps(wire, whole, rest, d, buffer, items, raw, tail, Handle(wire.codec, d, EventOfLine(wire, raw)));
        var line := TakeLine(position);
        var more: seq<Item>;
        more, over := HandleLine(raw, line);
        items := items + more;
        if over {
          return;
        }
      }
      SplitAtNewline(buffer);
      DrainEnds(wire, whole, rest, Decoder(), buffer, items);
    }

    /** Reads arrivals until the stream ends or the connection closes. */
    method Run(arrivals: seq<Arrival>) returns (items: seq<Item>)
      modifies this, state
      ensures items == Listen(wire, old(buffer), old(Decoder()), arrivals)
    {
      items := [];
      ghost var all := Listen(wire, buffer, Decoder(), arrivals);
      var i := 0;
      assert arrivals[0..] == arrivals && [] + all == all;
      while true
        invariant i >= 0 && state == old(state)
        invariant Listening(wire, all, buffer, Decoder(), arrivals, items, i)
        decreases |arrivals| - i
      {
        ListenSteps(wire, all, buffer, Decoder(), arrivals, items, i);
        var more, over := Drain();
        items := items + more;
        if over {
          return;
        }
        if |buffer| > MAX_EVENT_BYTES {
          items := items + [Failed(EventTooLarge)];
          return;
        }
        if i == |arrivals| {
          return;
        }
        match arrivals[i] {
          case Interrupt(error) =>
            items := items + [Failed(error)];
            return;
          case Bytes(bytes) =>
            buffer := buffer + bytes;
        }
        i := i + 1;
      }
    }
  }

  // ---- Chunk boundaries ----

  function Bytewise(arrivals: seq<seq<byte>>): (all: seq<Arrival>)
    ensures |all| == |arrivals| && forall i :: 0 <= i < |arrivals| ==> all[i] == Bytes(arrivals[i])
  {
    seq(|arrivals|, i requires 0 <= i < |arrivals| => Bytes(arrivals[i]))
  }

  /** What handling the lines yields, and the size error if what is left of the bytes is too long. */
  function WithRest(handled: Handled, rest: seq<byte>): seq<Item> {
    if !handled.over && |rest| > MAX_EVENT_BYTES then handled.items + [Failed(EventTooLarge)] else handled.items
  }

  /** What the bytes mean when they arrive all at once. */
  function AtOnce(wire: Wire, d: Decoder, bytes: seq<byte>): seq<Item> {
    WithRest(HandleAll(wire.codec, d, EventsOf(wire, Frame(bytes).lines)), Frame(bytes).rest)
  }

  lemma EventsOfJoin(wire: Wire, a: seq<seq<byte>>, b: seq<seq<byte>>)
    ensures EventsOf(wire, a + b) == EventsOf(wire, a) + EventsOf(wire, b)
  {
  }

  lemma WithRestPrefixed(items: seq<Item>, handled: Handled, rest: seq<byte>)
    ensures WithRest(Prefixed(items, handled), rest) == items + WithRest(handled, rest)
  {
    JoinAssociates(items, handled.items, [Failed(EventTooLarge)]);
  }

  /** Handling what has arrived and then the rest is handling it all. */
  lemma AtOnceJoin(wire: Wire, d: Decoder, a: seq<byte>, b: seq<byte>)
    ensures var framed := Frame(a);
            var handled := HandleAll(wire.codec, d, EventsOf(wire, framed.lines));
            AtOnce(wire, d, a + b)
            == (if handled.over then handled.items
                else handled.items + AtOnce(wire, handled.decoder, framed.rest + b))
  {
    FrameJoin(a, b);
    var first := Frame(a);
    var rest := Frame(first.rest + b);
    EventsOfJoin(wire, first.lines, rest.lines);
    var events, later := EventsOf(wire, first.lines), EventsOf(wire, rest.lines);
    HandleAllJoin(wire.codec, d, events, later);
    var handled := HandleAll(wire.codec, d, events);
    WithRestPrefixed(handled.items, HandleAll(wire.codec, handled.decoder, later), rest.rest);
  }

  lemma NothingMore(wire: Wire, d: Decoder, bytes: seq<byte>)
    requires Frame(bytes).lines == []
    ensures AtOnce(wire, d, bytes) == if |Frame(bytes).rest| > MAX_EVENT_BYTES then [Failed(EventTooLarge)] else []
  {
    assert EventsOf(wire, []) == [];
    assert [] + [Failed(EventTooLarge)] == [Failed(EventTooLarge)];
  }

  // ---- When the cuts matter ----

  lemma {:induction false} FrameUnframed(lines: seq<seq<byte>>, rest: seq<byte>)
    requires (forall i | 0 <= i < |lines| :: NoNewline(lines[i])) && NoNewline(rest)
    ensures Frame(Unframed(lines) + rest) == Framed(lines, rest)
    decreases |lines|
  {
    if lines == [] {
      assert [] + rest == rest;
      FrameNone(rest);
    } else {
      FrameUnframed(lines[1..], rest);
      FrameFirst(lines[0], Unframed(lines[1..]) + rest);
      JoinAssociates(lines[0] + [LF], Unframed(lines[1..]), rest);
    }
  }

  lemma {:induction false} UnframedJoin(a: seq<seq<byte>>, b: seq<seq<byte>>)
    ensures Unframed(a + b) == Unframed(a) + Unframed(b)
  {
    if a == [] {
      assert a + b == b;
    } else {
      assert (a + b)[1..] == a[1..] + b;
      UnframedJoin(a[1..], b);
      JoinAssociates(a[0] + [LF], Unframed(a[1..]), Unframed(b));
    }
  }

  /** The bytes from line `i` on. */
  function FromLine(framed: Framed, i: nat): seq<byte>
    requires i <= |framed.lines|
  {
    Unframed(framed.lines[i..]) + framed.rest
  }

  /** Where the decoder stands when line `i` begins. */
  function BeforeLine(wire: Wire, d: Decoder, framed: Framed, i: nat): Handled
    requires i <= |framed.lines|
  {
    HandleAll(wire.codec, d, EventsOf(wire, framed.lines[..i]))
  }

  predicate TooLong(framed: Framed, i: nat) {
    i < |framed.lines| && |framed.lines[i]| > MAX_EVENT_BYTES
  }

  /** Cutting inside line `i` changes nothing: it fits, or the stream is over before it, or all that
      the bytes from it on would yield is the size error anyway. */
  ghost predicate CutIsHarmless(wire: Wire, d: Decoder, framed: Framed, i: nat) {
    TooLong(framed, i) && !BeforeLine(wire, d, framed, i).over ==>
      AtOnce(wire, BeforeLine(wire, d, framed, i).decoder, FromLine(framed, i)) == [Failed(EventTooLarge)]
  }

  ghost predicate CutsAreHarmless(wire: Wire, d: Decoder, bytes: seq<byte>) {
    forall i :: 0 <= i < |Frame(bytes).lines| ==> CutIsHarmless(wire, d, Frame(bytes), i)
  }

  /** Every newline-terminated line fits in the buffer. */
  predicate LinesFit(bytes: seq<byte>) {
    forall i :: 0 <= i < |Frame(bytes).lines| ==> !TooLong(Frame(bytes), i)
  }

  lemma FromLineAfter(first: seq<seq<byte>>, framed: Framed, i: nat)
    requires i <= |framed.lines|
    ensures var all := Framed(first + framed.lines, framed.rest);
            && FromLine(all, |first| + i) == FromLine(framed, i)
            && all.lines[..|first| + i] == first + framed.lines[..i]
            && (i < |framed.lines| ==> all.lines[|first| + i] == framed.lines[i])
  {
    assert (first + framed.lines)[|first| + i..] == framed.lines[i..];
  }

  /** Once what has arrived is handled, what is to come is as harmless to cut as it was. */
  lemma HarmlessOnward(wire: Wire, d: Decoder, a: seq<byte>, b: seq<byte>)
    requires CutsAreHarmless(wire, d, a + b)
    requires !HandleAll(wire.codec, d, EventsOf(wire, Frame(a).lines)).over
    ensures CutsAreHarmless(wire, HandleAll(wire.codec, d, EventsOf(wire, Frame(a).lines)).decoder, Frame(a).rest + b)
  {
    FrameJoin(a, b);
    var first, later := Frame(a).lines, Frame(Frame(a).rest + b);
    forall i | 0 <= i < |later.lines|
      ensures CutIsHarmless(wire, HandleAll(wire.codec, d, EventsOf(wire, first)).decoder, later, i)
    {
      HarmlessLater(wire, d, first, later, i);
    }
  }

  lemma HarmlessLater(wire: Wire, d: Decoder, first: seq<seq<byte>>, later: Framed, i: nat)
    requires i < |later.lines| && !HandleAll(wire.codec, d, EventsOf(wire, first)).over
    requires CutIsHarmless(wire, d, Framed(first + later.lines, later.rest), |first| + i)
    ensures CutIsHarmless(wire, HandleAll(wire.codec, d, EventsOf(wire, first)).decoder, later, i)
  {
    FromLineAfter(first, later, i);
    EventsOfJoin(wire, first, later.lines[..i]);
    HandleAllJoin(wire.codec, d, EventsOf(wire, first), EventsOf(wire, later.lines[..i]));
  }

  /** A remainder already too long never ends, or ends as a line too long to cut. */
  lemma LongRestEndsInTheError(wire: Wire, d: Decoder, rest: seq<byte>, more: seq<byte>)
    requires NoNewline(rest) && |rest| > MAX_EVENT_BYTES && CutsAreHarmless(wire, d, rest + more)
    ensures AtOnce(wire, d, rest + more) == [Failed(EventTooLarge)]
  {
    var bytes := rest + more;
    var framed := Frame(bytes);
    var position := FirstNewline(bytes);
    assert forall i | 0 <= i < |rest| :: bytes[i] == rest[i];
    assert position >= |rest|;
    if position < |bytes| {
      assert framed.lines[0] == bytes[..position];
      assert CutIsHarmless(wire, d, framed, 0);
      assert framed.lines[..0] == [] && EventsOf(wire, []) == [];
      assert framed.lines[0..] == framed.lines;
      FrameLosesNothing(bytes);
    } else {
      NothingMore(wire, d, bytes);
    }
  }

  /** Listening to arrivals that are all bytes. */
  lemma ListenOnward(wire: Wire, buffer: seq<byte>, d: Decoder, arrivals: seq<seq<byte>>)
    ensures var rest := Frame(buffer).rest;
            var handled := HandleAll(wire.codec, d, EventsOf(wire, Frame(buffer).lines));
            Listen(wire, buffer, d, Bytewise(arrivals))
            == if !handled.over && |rest| <= MAX_EVENT_BYTES && arrivals != [] then
                 handled.items + Listen(wire, rest + arrivals[0], handled.decoder, Bytewise(arrivals[1..]))
               else WithRest(handled, rest)
  {
    var handled := HandleAll(wire.codec, d, EventsOf(wire, Frame(buffer).lines));
    assert handled.items + [] == handled.items;
    if arrivals != [] {
      assert Bytewise(arrivals)[1..] == Bytewise(arrivals[1..]);
    }
  }

  lemma {:induction false} ListenIndependent(wire: Wire, buffer: seq<byte>, d: Decoder, arrivals: seq<seq<byte>>)
    requires CutsAreHarmless(wire, d, buffer + Concatenated(arrivals))
    ensures Listen(wire, buffer, d, Bytewise(arrivals)) == AtOnce(wire, d, buffer + Concatenated(arrivals))
    decreases |arrivals|
  {
    var framed := Frame(buffer);
    var handled := HandleAll(wire.codec, d, EventsOf(wire, framed.lines));
    var all := Concatenated(arrivals);
    FrameLosesNothing(buffer);
    ListenOnward(wire, buffer, d, arrivals);
    AtOnceJoin(wire, d, buffer, all);
    if !handled.over {
      HarmlessOnward(wire, d, buffer, all);
      if |framed.rest| > MAX_EVENT_BYTES {
        LongRestEndsInTheError(wire, handled.decoder, framed.rest, all);
      } else if arrivals == [] {
        assert framed.rest + all == framed.rest && handled.items + [] == handled.items;
        FrameNone(framed.rest);
        NothingMore(wire, handled.decoder, framed.rest);
      } else {
        JoinAssociates(framed.rest, arrivals[0], Concatenated(arrivals[1..]));
        ListenIndependent(wire, framed.rest + arrivals[0], handled.decoder, arrivals[1..]);
      }
    }
  }

  lemma SseChunksFirst(wire: Wire, bytes: seq<byte>, rest: seq<seq<byte>>)
    ensures SseChunks(wire, Bytewise([bytes] + rest)) == Listen(wire, bytes, FRESH, Bytewise(rest))
  {
    FrameNone([]);
    var arrivals := Bytewise([bytes] + rest);
    assert arrivals[1..] == Bytewise(rest);
    assert EventsOf(wire, []) == [] && [] + bytes == bytes;
    var after := Listen(wire, bytes, FRESH, Bytewise(rest));
    assert ListenAfter(wire, Handled([], FRESH, false), [], arrivals) == after;
    assert [] + after == after;
  }

  /** The two chunks a cut at the end of line `i`, before its newline, makes. */
  function CutAtLine(bytes: seq<byte>, i: nat): seq<seq<byte>>
    requires i < |Frame(bytes).lines|
  {
    var framed := Frame(bytes);
    [Unframed(framed.lines[..i]) + framed.lines[i], [LF] + FromLine(framed, i + 1)]
  }

  lemma FromLineStarts(framed: Framed, i: nat)
    requires i < |framed.lines|
    ensures FromLine(framed, i) == framed.lines[i] + ([LF] + FromLine(framed, i + 1))
  {
    var line, after := framed.lines[i], framed.lines[i + 1..];
    assert framed.lines[i..] == [line] + after;
    UnframedFirst(line, after);
    JoinAssociates(line + [LF], Unframed(after), framed.rest);
    JoinAssociates(line, [LF], Unframed(after) + framed.rest);
  }

  lemma LinesSplit(framed: Framed, i: nat)
    requires i <= |framed.lines|
    ensures Unframed(framed.lines) + framed.rest == Unframed(framed.lines[..i]) + FromLine(framed, i)
  {
    assert framed.lines == framed.lines[..i] + framed.lines[i..];
    UnframedJoin(framed.lines[..i], framed.lines[i..]);
    JoinAssociates(Unframed(framed.lines[..i]), Unframed(framed.lines[i..]), framed.rest);
  }

  lemma CutAtLineFrames(bytes: seq<byte>, i: nat)
    requires i < |Frame(bytes).lines|
    ensures Frame(CutAtLine(bytes, i)[0]) == Framed(Frame(bytes).lines[..i], Frame(bytes).lines[i])
  {
    FrameLosesNothing(bytes);
    FrameUnframed(Frame(bytes).lines[..i], Frame(bytes).lines[i]);
  }

  lemma CutAtLineJoins(bytes: seq<byte>, i: nat)
    requires i < |Frame(bytes).lines|
    ensures Frame(bytes).lines[i] + CutAtLine(bytes, i)[1] == FromLine(Frame(bytes), i)
    ensures bytes == CutAtLine(bytes, i)[0] + CutAtLine(bytes, i)[1]
  {
    var framed := Frame(bytes);
    FrameLosesNothing(bytes);
    FromLineStarts(framed, i);
    LinesSplit(framed, i);
    JoinAssociates(Unframed(framed.lines[..i]), framed.lines[i], [LF] + FromLine(framed, i + 1));
  }

  lemma CutAtLineIsACut(bytes: seq<byte>, i: nat)
    requires i < |Frame(bytes).lines|
    ensures Concatenated(CutAtLine(bytes, i)) == bytes
  {
    CutAtLineJoins(bytes, i);
    ConcatenatedPair(CutAtLine(bytes, i)[0], CutAtLine(bytes, i)[1]);
  }

  /** Cutting a long line that is reached ends the stream there. */
  lemma CutAtLineTells(wire: Wire, bytes: seq<byte>, i: nat)
    requires TooLong(Frame(bytes), i)
    requires SseChunks(wire, Bytewise(CutAtLine(bytes, i))) == AtOnce(wire, FRESH, bytes)
    ensures CutIsHarmless(wire, FRESH, Frame(bytes), i)
  {
    var framed, cut := Frame(bytes), CutAtLine(bytes, i);
    var before := BeforeLine(wire, FRESH, framed, i);
    CutAtLineFrames(bytes, i);
    CutAtLineJoins(bytes, i);
    if !before.over {
      assert cut == [cut[0]] + [cut[1]];
      SseChunksFirst(wire, cut[0], [cut[1]]);
      AtOnceJoin(wire, FRESH, cut[0], cut[1]);
      SamePrefixCancels(before.items, [Failed(EventTooLarge)], AtOnce(wire, before.decoder, FromLine(framed, i)));
    }
  }

  /** However the bytes are cut into chunks they yield what they yield at once. */
  ghost predicate CutsDoNotMatter(wire: Wire, bytes: seq<byte>) {
    forall arrivals | Concatenated(arrivals) == bytes ::
      SseChunks(wire, Bytewise(arrivals)) == AtOnce(wire, FRESH, bytes)
  }

  /** The cuts do not matter exactly when every line too long for the buffer that is reached is followed
      by nothing but the size error. */
  lemma CutsDoNotMatterExactlyWhen(wire: Wire, bytes: seq<byte>)
    ensures CutsDoNotMatter(wire, bytes) <==> CutsAreHarmless(wire, FRESH, bytes)
  {
    if CutsAreHarmless(wire, FRESH, bytes) {
      forall arrivals | Concatenated(arrivals) == bytes
        ensures SseChunks(wire, Bytewise(arrivals)) == AtOnce(wire, FRESH, bytes)
      {
        assert [] + bytes == bytes;
        ListenIndependent(wire, [], FRESH, arrivals);
      }
    }
    if CutsDoNotMatter(wire, bytes) {
      forall i | 0 <= i < |Frame(bytes).lines| ensures CutIsHarmless(wire, FRESH, Frame(bytes), i) {
        if TooLong(Frame(bytes), i) {
          CutAtLineIsACut(bytes, i);
          CutAtLineTells(wire, bytes, i);
        }
      }
    }
  }

  /** So however the bytes are cut, the same items come out when every newline-terminated line fits. */
  lemma ChunkBoundariesDoNotMatter(wire: Wire, arrivals: seq<seq<byte>>, arrivals': seq<seq<byte>>)
    requires Concatenated(arrivals) == Concatenated(arrivals') && LinesFit(Concatenated(arrivals))
    ensures SseChunks(wire, Bytewise(arrivals)) == SseChunks(wire, Bytewise(arrivals'))
  {
    CutsDoNotMatterExactlyWhen(wire, Concatenated(arrivals));
  }

  // ---- When a line does not fit ----

  lemma HandlesNothing(wire: Wire, line: seq<byte>, d: Decoder)
    requires EventOfLine(wire, line) == Ignored
    ensures HandleAll(wire.codec, d, EventsOf(wire, [line])) == Handled([], d, false)
  {
    EventsOfFirst(wire, line, []);
    assert EventsOf(wire, []) == [] && [line] + [] == [line] && [Ignored] + [] == [Ignored];
    HandleFirst(wire.codec, d, Ignored, []);
  }

  /** A line over the limit is skipped when it arrives with its newline and ends the stream when it
      does not, so the chunking does matter there. */
  lemma LongLinesDependOnTheChunks(wire: Wire, line: seq<byte>)
    requires NoNewline(line) && |line| > MAX_EVENT_BYTES && EventOfLine(wire, line) == Ignored
    ensures SseChunks(wire, Bytewise([line + [LF]])) == []
    ensures SseChunks(wire, Bytewise([line, [LF]])) == [Failed(EventTooLarge)]
  {
    assert [line + [LF]] + [] == [line + [LF]] && [line] + [[LF]] == [line, [LF]];
    SseChunksFirst(wire, line + [LF], []);
    SseChunksFirst(wire, line, [[LF]]);
    FrameNone([]);
    FrameNone(line);
    FrameFirst(line, []);
    assert line + [LF] + [] == line + [LF] && [line] + [] == [line];
    HandlesNothing(wire, line, FRESH);
    assert EventsOf(wire, []) == [];
  }

  /** `items` is `whole`, or `whole` cut short by the size limit. */
  ghost predicate WholeOrCutShort(items: seq<Item>, whole: seq<Item>) {
    || items == whole
    || (items != [] && items[|items| - 1] == Failed(EventTooLarge) && items[..|items| - 1] <= whole)
  }

  lemma CutShortStays(first: seq<Item>, items: seq<Item>, whole: seq<Item>)
    requires WholeOrCutShort(items, whole)
    ensures WholeOrCutShort(first + items, first + whole)
  {
    if items != whole {
      assert (first + items)[..|first + items| - 1] == first + items[..|items| - 1];
    }
  }

  /** Whatever the bytes and however they are cut, the items are those of the bytes at once, or a
      prefix of them ended by the size limit: no split ever makes the decoder say something else. */
  lemma {:induction false} SplitsOnlyCutShort(wire: Wire, buffer: seq<byte>, d: Decoder, arrivals: seq<seq<byte>>)
    ensures WholeOrCutShort(Listen(wire, buffer, d, Bytewise(arrivals)),
                            AtOnce(wire, d, buffer + Concatenated(arrivals)))
    decreases |arrivals|
  {
    var framed := Frame(buffer);
    var handled := HandleAll(wire.codec, d, EventsOf(wire, framed.lines));
    var all := Concatenated(arrivals);
    FrameLosesNothing(buffer);
    ListenOnward(wire, buffer, d, arrivals);
    AtOnceJoin(wire, d, buffer, all);
    if !handled.over && |framed.rest| > MAX_EVENT_BYTES {
      assert (handled.items + [Failed(EventTooLarge)])[..|handled.items|] == handled.items;
    } else if !handled.over && arrivals == [] {
      assert framed.rest + all == framed.rest && handled.items + [] == handled.items;
      FrameNone(framed.rest);
      NothingMore(wire, handled.decoder, framed.rest);
    } else if !handled.over {
      JoinAssociates(framed.rest, arrivals[0], Concatenated(arrivals[1..]));
      SplitsOnlyCutShort(wire, framed.rest + arrivals[0], handled.decoder, arrivals[1..]);
      CutShortStays(handled.items, Listen(wire, framed.rest + arrivals[0], handled.decoder, Bytewise(arrivals[1..])),
                    AtOnce(wire, handled.decoder, framed.rest + all));
    }
  }

  ghost predicate FinalIsLast(items: seq<Item>) {
    forall i | 0 <= i < |items| && Final(items[i]) :: i == |items| - 1
  }

  lemma FinalStaysLast(first: seq<Item>, rest: seq<Item>)
    requires (forall i | 0 <= i < |first| :: !Final(first[i])) && FinalIsLast(rest)
    ensures FinalIsLast(first + rest)
  {
    forall i | 0 <= i < |first + rest| && Final((first + rest)[i]) ensures i == |first + rest| - 1 {
      assert i >= |first| && (first + rest)[i] == rest[i - |first|];
    }
  }

  /** Nothing is yielded after a finished response or an error. */
  lemma {:induction false} NothingFollowsTheEnd(wire: Wire, buffer: seq<byte>, d: Decoder, arrivals: seq<Arrival>)
    ensures FinalIsLast(Listen(wire, buffer, d, arrivals))
    decreases |arrivals|
  {
    var framed := Frame(buffer);
    var handled := HandleAll(wire.codec, d, EventsOf(wire, framed.lines));
    HandleAllEndsAtFinal(wire.codec, d, EventsOf(wire, framed.lines));
    var after := ListenAfter(wire, handled, framed.rest, arrivals);
    if handled.over {
      assert handled.items + [] == handled.items;
    } else {
      if |framed.rest| <= MAX_EVENT_BYTES && arrivals != [] && arrivals[0].Bytes? {
        NothingFollowsTheEnd(wire, framed.rest + arrivals[0].bytes, handled.decoder, arrivals[1..]);
      }
      FinalStaysLast(handled.items, after);
    }
  }
}
