/** Event streams as sections 9.2.5 and 9.2.6 of the WHATWG HTML Standard read them, and the streams on
    which the decoder reads the same payloads. */
module SseStandard {
  import opened Wrappers
  import opened SseFraming

  const COLON: byte := 58

  /** "data" */
  const DATA: seq<byte> := [100, 97, 116, 97]

  const BOM: seq<byte> := [0xEF, 0xBB, 0xBF]

  // ---- The standard's lines ----

  predicate EndsLine(b: byte) {
    b == CR || b == LF
  }

  function FirstEnd(bytes: seq<byte>): (position: nat)
    ensures position <= |bytes|
    ensures position < |bytes| ==> EndsLine(bytes[position])
    ensures forall i | 0 <= i < position :: !EndsLine(bytes[i])
  {
    EndFrom(bytes, 0)
  }

  function EndFrom(bytes: seq<byte>, from: nat): (position: nat)
    requires from <= |bytes|
    ensures from <= position <= |bytes|
    ensures position < |bytes| ==> EndsLine(bytes[position])
    ensures forall i | from <= i < position :: !EndsLine(bytes[i])
    decreases |bytes| - from
  {
    if from == |bytes| || EndsLine(bytes[from]) then from else EndFrom(bytes, from + 1)
  }

  /** A carriage return and line feed end one line together. */
  function EndWidth(bytes: seq<byte>, position: nat): (width: nat)
    requires position < |bytes|
    ensures 1 <= width && position + width <= |bytes|
  {
    if bytes[position] == CR && position + 1 < |bytes| && bytes[position + 1] == LF then 2 else 1
  }

  /** The lines that are ended, by either character or the two together. */
  function StandardLines(bytes: seq<byte>): seq<seq<byte>>
    decreases |bytes|
  {
    var position := FirstEnd(bytes);
    if position == |bytes| then []
    else [bytes[..position]] + StandardLines(bytes[position + EndWidth(bytes, position)..])
  }

  // ---- The standard's fields ----

  function FirstColon(line: seq<byte>): (position: nat)
    ensures position <= |line|
    ensures position < |line| ==> line[position] == COLON
    ensures forall i | 0 <= i < position :: line[i] != COLON
  {
    if line == [] || line[0] == COLON then 0 else 1 + FirstColon(line[1..])
  }

  function WithoutSpace(value: seq<byte>): seq<byte> {
    if value != [] && value[0] == SPACE then value[1..] else value
  }

  /** The value of a data field; a line with no colon is a field with no value, and one that starts with
      a colon is a comment. */
  function DataValue(line: seq<byte>): Option<seq<byte>> {
    var colon := FirstColon(line);
    if line[..colon] != DATA then None
    else Some(if colon == |line| then [] else WithoutSpace(line[colon + 1..]))
  }

  /** The data of each event dispatched: values joined by newlines, at each blank line that follows any. */
  function Dispatched(lines: seq<seq<byte>>, buffer: seq<byte>): seq<seq<byte>>
    decreases |lines|
  {
    if lines == [] then []
    else if lines[0] == [] then
      (if buffer == [] then [] else [buffer[..|buffer| - 1]]) + Dispatched(lines[1..], [])
    else
      match DataValue(lines[0])
      case Some(value) => Dispatched(lines[1..], buffer + value + [LF])
      case None => Dispatched(lines[1..], buffer)
  }

  function WithoutBom(bytes: seq<byte>): seq<byte> {
    if BOM <= bytes then bytes[|BOM|..] else bytes
  }

  function StandardPayloads(bytes: seq<byte>): seq<seq<byte>> {
    Dispatched(StandardLines(WithoutBom(bytes)), [])
  }

  // ---- The decoder's payloads ----

  function Payloads(lines: seq<seq<byte>>): seq<seq<byte>> {
    if lines == [] then []
    else
      var data := EventData(lines[0]);
      (if data.Some? then [data.value] else []) + Payloads(lines[1..])
  }

  function Trimmed(lines: seq<seq<byte>>): (trimmed: seq<seq<byte>>)
    ensures |trimmed| == |lines| && forall i :: 0 <= i < |lines| ==> trimmed[i] == WithoutCr(lines[i])
  {
    seq(|lines|, i requires 0 <= i < |lines| => WithoutCr(lines[i]))
  }

  function DecodedPayloads(bytes: seq<byte>): seq<seq<byte>> {
    Payloads(Trimmed(Frame(bytes).lines))
  }

  // ---- Where they agree ----

  /** Carriage returns come only before line feeds. */
  predicate NoBareCr(bytes: seq<byte>) {
    forall i | 0 <= i < |bytes| :: NotBare(bytes, i)
  }

  predicate NotBare(bytes: seq<byte>, i: nat)
    requires i < |bytes|
  {
    bytes[i] == CR ==> i + 1 < |bytes| && bytes[i + 1] == LF
  }

  /** Each event has one data line at most, written with its colon, and is ended by a blank line; `held`
      when the event under way has had its data line. */
  predicate OneDataLineAnEvent(lines: seq<seq<byte>>, held: bool)
    decreases |lines|
  {
    if lines == [] then !held
    else if lines[0] == [] then OneDataLineAnEvent(lines[1..], false)
    else if DataValue(lines[0]).Some? then !held && lines[0] != DATA && OneDataLineAnEvent(lines[1..], true)
    else OneDataLineAnEvent(lines[1..], held)
  }

  lemma FirstEndIs(bytes: seq<byte>, position: nat)
    requires position <= |bytes| && (position < |bytes| ==> EndsLine(bytes[position]))
    requires forall i | 0 <= i < position :: !EndsLine(bytes[i])
    ensures FirstEnd(bytes) == position
  {
  }

  lemma EndsWithCr(bytes: seq<byte>, newline: nat)
    requires 0 < newline < |bytes| && bytes[newline] == LF && bytes[newline - 1] == CR
    requires forall i | 0 <= i < newline - 1 :: !EndsLine(bytes[i])
    ensures FirstEnd(bytes) == newline - 1 && EndWidth(bytes, newline - 1) == 2
    ensures bytes[..newline - 1] == WithoutCr(bytes[..newline])
  {
    FirstEndIs(bytes, newline - 1);
    var line := bytes[..newline];
    assert line[|line| - 1] == CR && line[..|line| - 1] == bytes[..newline - 1];
  }

  lemma EndsWithoutCr(bytes: seq<byte>, newline: nat)
    requires newline < |bytes| && bytes[newline] == LF
    requires forall i | 0 <= i < newline :: !EndsLine(bytes[i])
    ensures FirstEnd(bytes) == newline && EndWidth(bytes, newline) == 1
    ensures bytes[..newline] == WithoutCr(bytes[..newline])
  {
    FirstEndIs(bytes, newline);
  }

  /** Without bare carriage returns the decoder's first line, trimmed, is the standard's. */
  lemma FirstLineAgrees(bytes: seq<byte>)
    requires NoBareCr(bytes) && FirstNewline(bytes) < |bytes|
    ensures FirstEnd(bytes) < |bytes|
    ensures bytes[..FirstEnd(bytes)] == WithoutCr(bytes[..FirstNewline(bytes)])
    ensures FirstEnd(bytes) + EndWidth(bytes, FirstEnd(bytes)) == FirstNewline(bytes) + 1
  {
    var newline := FirstNewline(bytes);
    forall i | 0 <= i && i + 1 < newline ensures bytes[i] != CR {
      assert NotBare(bytes, i);
      assert bytes[i + 1] != LF;
    }
    if newline > 0 && bytes[newline - 1] == CR {
      EndsWithCr(bytes, newline);
    } else {
      EndsWithoutCr(bytes, newline);
    }
  }

  lemma NoLineLeft(bytes: seq<byte>)
    requires NoBareCr(bytes) && FirstNewline(bytes) == |bytes|
    ensures StandardLines(bytes) == []
  {
    forall i | 0 <= i < |bytes| ensures !EndsLine(bytes[i]) {
      assert NotBare(bytes, i);
      assert bytes[i] != LF && (i + 1 < |bytes| ==> bytes[i + 1] != LF);
    }
    FirstEndIs(bytes, |bytes|);
  }

  lemma TailNotBare(bytes: seq<byte>, from: nat)
    requires NoBareCr(bytes) && from <= |bytes|
    ensures NoBareCr(bytes[from..])
  {
    var tail := bytes[from..];
    forall i | 0 <= i < |tail| ensures NotBare(tail, i) {
      assert NotBare(bytes, from + i);
    }
  }

  lemma TrimmedFirst(lines: seq<seq<byte>>, line: seq<byte>, rest: seq<seq<byte>>)
    requires lines == [line] + rest
    ensures Trimmed(lines) == [WithoutCr(line)] + Trimmed(rest)
  {
  }

  lemma FrameTail(bytes: seq<byte>)
    requires FirstNewline(bytes) < |bytes|
    ensures Frame(bytes).lines == [bytes[..FirstNewline(bytes)]] + Frame(bytes[FirstNewline(bytes) + 1..]).lines
  {
  }

  lemma StandardFirst(bytes: seq<byte>)
    requires NoBareCr(bytes) && FirstNewline(bytes) < |bytes|
    ensures StandardLines(bytes)
         == [WithoutCr(bytes[..FirstNewline(bytes)])] + StandardLines(bytes[FirstNewline(bytes) + 1..])
  {
    FirstLineAgrees(bytes);
  }

  lemma LinesAgreeOnward(bytes: seq<byte>, tail: seq<byte>)
    requires NoBareCr(bytes) && FirstNewline(bytes) < |bytes| && tail == bytes[FirstNewline(bytes) + 1..]
    requires StandardLines(tail) == Trimmed(Frame(tail).lines)
    ensures StandardLines(bytes) == Trimmed(Frame(bytes).lines)
  {
    StandardFirst(bytes);
    FrameTail(bytes);
    TrimmedFirst(Frame(bytes).lines, bytes[..FirstNewline(bytes)], Frame(tail).lines);
  }

  lemma {:induction false} LinesAgree(bytes: seq<byte>)
    requires NoBareCr(bytes)
    ensures StandardLines(bytes) == Trimmed(Frame(bytes).lines)
    decreases |bytes|
  {
    var newline := FirstNewline(bytes);
    if newline == |bytes| {
      NoLineLeft(bytes);
    } else {
      TailNotBare(bytes, newline + 1);
      LinesAgree(bytes[newline + 1..]);
      LinesAgreeOnward(bytes, bytes[newline + 1..]);
    }
  }

  lemma FirstColonIs(line: seq<byte>, position: nat)
    requires position < |line| && line[position] == COLON && forall i | 0 <= i < position :: line[i] != COLON
    ensures FirstColon(line) == position
  {
  }

  /** On a line that is not the bare field name, the decoder's payload is the standard's value. */
  lemma ValueAgrees(line: seq<byte>)
    requires line != DATA
    ensures EventData(line) == DataValue(line)
  {
    if DATA_FIELD <= line {
      assert forall i | 0 <= i < 5 :: line[i] == DATA_FIELD[i];
      FirstColonIs(line, 4);
      assert line[..4] == DATA;
      assert line[|DATA_FIELD|..] == line[5..];
    }
  }

  /** What one event's data line leaves in the buffer. */
  function Buffered(payload: Option<seq<byte>>): seq<byte> {
    if payload.Some? then payload.value + [LF] else []
  }

  lemma {:induction false} PayloadsAgree(lines: seq<seq<byte>>, held: Option<seq<byte>>)
    requires OneDataLineAnEvent(lines, held.Some?)
    ensures Dispatched(lines, Buffered(held)) == (if held.Some? then [held.value] else []) + Payloads(lines)
    decreases |lines|
  {
    if lines != [] {
      var line, rest := lines[0], lines[1..];
      if line == [] {
        PayloadsAgree(rest, None);
        BufferedDispatches(held);
        assert EventData([]) == None;
      } else if DataValue(line).Some? {
        ValueAgrees(line);
        PayloadsAgree(rest, DataValue(line));
        assert [] + DataValue(line).value + [LF] == DataValue(line).value + [LF];
      } else {
        ValueOfOther(line);
        PayloadsAgree(rest, held);
        assert [] + Payloads(rest) == Payloads(rest);
      }
    }
  }

  lemma BufferedDispatches(held: Option<seq<byte>>)
    ensures held.Some? ==> Buffered(held) != [] && Buffered(held)[..|Buffered(held)| - 1] == held.value
  {
  }

  lemma ValueOfOther(line: seq<byte>)
    requires DataValue(line).None?
    ensures EventData(line).None?
  {
    if line == DATA {
      assert !(DATA_FIELD <= line);
    } else {
      ValueAgrees(line);
    }
  }

  /** On a stream with no byte order mark, whose lines end in LF or CRLF, and whose events have one data
      line at most, the decoder's payloads are the standard's. */
  lemma ReadsAsTheStandard(bytes: seq<byte>)
    requires !(BOM <= bytes) && NoBareCr(bytes) && OneDataLineAnEvent(StandardLines(bytes), false)
    ensures DecodedPayloads(bytes) == StandardPayloads(bytes)
  {
    LinesAgree(bytes);
    PayloadsAgree(StandardLines(bytes), None);
    assert [] + Payloads(StandardLines(bytes)) == Payloads(StandardLines(bytes));
  }

  lemma TailWithoutBareData(lines: seq<seq<byte>>)
    requires lines != [] && DATA !in lines
    ensures lines[0] != DATA && DATA !in lines[1..]
  {
  }

  /** The standard never dispatches more events than there are data lines, and as many only if no event
      has two and none is left unended. */
  lemma {:induction false} NoMoreEventsThanDataLines(lines: seq<seq<byte>>, buffer: seq<byte>)
    requires DATA !in lines
    ensures var owed := |Payloads(lines)| + if buffer == [] then 0 else 1;
            && |Dispatched(lines, buffer)| <= owed
            && (|Dispatched(lines, buffer)| == owed ==> OneDataLineAnEvent(lines, buffer != []))
    decreases |lines|
  {
    if lines != [] {
      var line, rest := lines[0], lines[1..];
      TailWithoutBareData(lines);
      if line == [] {
        NoMoreEventsThanDataLines(rest, []);
        assert EventData([]) == None;
      } else if DataValue(line).Some? {
        ValueAgrees(line);
        NoMoreEventsThanDataLines(rest, buffer + DataValue(line).value + [LF]);
      } else {
        ValueOfOther(line);
        NoMoreEventsThanDataLines(rest, buffer);
      }
    }
  }

  /** On a stream with no byte order mark, whose lines end in LF or CRLF and whose data lines have their
      colon, the decoder reads the standard's payloads if and only if each event has one data line at most
      and none is left unended. */
  lemma ReadsAsTheStandardExactlyWhen(bytes: seq<byte>)
    requires !(BOM <= bytes) && NoBareCr(bytes) && DATA !in StandardLines(bytes)
    ensures DecodedPayloads(bytes) == StandardPayloads(bytes) <==> OneDataLineAnEvent(StandardLines(bytes), false)
  {
    if OneDataLineAnEvent(StandardLines(bytes), false) {
      ReadsAsTheStandard(bytes);
    }
    LinesAgree(bytes);
    NoMoreEventsThanDataLines(StandardLines(bytes), []);
  }

  /** Two data lines in one event are one payload to the standard and two to the decoder. */
  lemma TwoDataLinesAreReadApart(a: seq<byte>, b: seq<byte>)
    ensures var lines := [DATA_FIELD + [SPACE] + a, DATA_FIELD + [SPACE] + b, []];
            Dispatched(lines, []) == [a + [LF] + b] && Payloads(lines) == [a, b]
  {
    var first, second := DATA_FIELD + [SPACE] + a, DATA_FIELD + [SPACE] + b;
    EventDataReadsWhatFollows(a);
    EventDataReadsWhatFollows(b);
    ValueAgrees(first);
    ValueAgrees(second);
    var lines := [first, second, []];
    assert lines[1..] == [second, []] && [second, []][1..] == [[]];
    var rest: seq<seq<byte>> := [[]];
    assert rest[1..] == [];
    var buffer := [] + a + [LF] + b + [LF];
    assert buffer[..|buffer| - 1] == a + [LF] + b;
    assert Dispatched(rest, buffer) == [buffer[..|buffer| - 1]] + [];
    assert EventData([]) == None && Payloads(rest) == [];
    assert Payloads([second, []]) == [b] + [];
  }
}
