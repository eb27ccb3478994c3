/** Conversion of a conversation into the messages the API takes, and what it does to a transcript
    whose tool calls are all answered. */
module WireMessages {
  import opened Wrappers
  import opened JsonValues
  import opened Conversation
  import opened SystemPrompts

  datatype Block =
    | TextBlock(text: string)
    | Image(mediaType: string, data: string)
    | Document(mediaType: string, data: string)
    | ToolUse(id: string, name: string, input: Json)
    | ToolResult(toolUseId: string, content: Json, isError: bool)

  datatype WireRole = UserRole | AssistantRole

  datatype WireMessage = WireMessage(role: WireRole, content: seq<Block>)

  datatype Error = Unsupported(role: Role, part: ContentPart)

  // ---- One message ----

  /** A result's content as the API takes it: a string as it stands, anything else printed. */
  function Rendered(content: Json, render: Json -> string): Json {
    if content.Str? then content else Str(render(content))
  }

  predicate IsImage(mimeType: string) {
    "image/" <= mimeType
  }

  /** The block a part becomes on a message of this role; none for empty text. */
  function ConvertPart(role: Role, part: ContentPart, render: Json -> string): Result<seq<Block>, Error> {
    match part
    case Text(text) => Success(if text == "" then [] else [TextBlock(text)])
    case Blob(mimeType, data) =>
      if mimeType == "application/pdf" then Success([Document(mimeType, data)])
      else if IsImage(mimeType) then Success([Image(mimeType, data)])
      else Failure(Unsupported(role, part))
    case Call(call) =>
      if role == Assistant then Success([ToolUse(call.callId, call.name, call.arguments)])
      else Failure(Unsupported(role, part))
    case Outcome(callId, content, isError) =>
      if role == Tool then Success([ToolResult(callId, Rendered(content, render), isError)])
      else Failure(Unsupported(role, part))
    case Other(_) => Failure(Unsupported(role, part))
  }

  function ConvertBlocks(role: Role, parts: seq<ContentPart>, render: Json -> string): Result<seq<Block>, Error> {
    if parts == [] then Success([])
    else
      var last := |parts| - 1;
      match ConvertBlocks(role, parts[..last], render)
      case Failure(error) => Failure(error)
      case Success(blocks) =>
        match ConvertPart(role, parts[last], render)
        case Failure(error) => Failure(error)
        case Success(more) => Success(blocks + more)
  }

  function SystemText(parts: seq<ContentPart>): Result<string, Error> {
    if parts == [] then Success("")
    else
      var last := |parts| - 1;
      match SystemText(parts[..last])
      case Failure(error) => Failure(error)
      case Success(text) =>
        if parts[last].Text? then Success(text + parts[last].text) else Failure(Unsupported(System, parts[last]))
  }

  // ---- A conversation ----

  function WireRoleOf(role: Role): WireRole {
    if role == Assistant then AssistantRole else UserRole
  }

  /** Adds a turn, joining it to the last one when both go out under the same role. */
  function Merge(wire: seq<WireMessage>, role: WireRole, blocks: seq<Block>): seq<WireMessage> {
    if blocks == [] then wire
    else if wire != [] && wire[|wire| - 1].role == role then
      wire[..|wire| - 1] + [WireMessage(role, wire[|wire| - 1].content + blocks)]
    else wire + [WireMessage(role, blocks)]
  }

  datatype Converted = Converted(system: seq<string>, wire: seq<WireMessage>)

  function Extend(so: Converted, message: Message, render: Json -> string): Result<Converted, Error> {
    if message.role == System then
      match SystemText(message.content)
      case Failure(error) => Failure(error)
      case Success(text) => Success(so.(system := so.system + [text]))
    else
      match ConvertBlocks(message.role, message.content, render)
      case Failure(error) => Failure(error)
      case Success(blocks) => Success(so.(wire := Merge(so.wire, WireRoleOf(message.role), blocks)))
  }

  function Convert(messages: seq<Message>, render: Json -> string): Result<Converted, Error> {
    if messages == [] then Success(Converted([], []))
    else
      var last := |messages| - 1;
      match Convert(messages[..last], render)
      case Failure(error) => Failure(error)
      case Success(so) => Extend(so, messages[last], render)
  }

  function JoinedByBlankLines(texts: seq<string>): string {
    if texts == [] then "" else if |texts| == 1 then texts[0] else texts[0] + "\n\n" + JoinedByBlankLines(texts[1..])
  }

  // ---- The loops ----

  method ConvertBlocksLoop(message: Message, render: Json -> string) returns (r: Result<seq<Block>, Error>)
    ensures r == ConvertBlocks(message.role, message.content, render)
  {
    var blocks: seq<Block> := [];
    var parts := message.content;
    for i := 0 to |parts|
      invariant ConvertBlocks(message.role, parts[..i], render) == Success(blocks)
    {
      assert parts[..i + 1][..i] == parts[..i];
      var more := ConvertPart(message.role, parts[i], render);
      if more.Failure? {
        ConvertBlocksFails(message.role, parts, i + 1, render);
        return Failure(more.error);
      }
      blocks := blocks + more.value;
    }
    assert parts[..|parts|] == parts;
    return Success(blocks);
  }

  lemma {:induction false} ConvertBlocksFails(role: Role, parts: seq<ContentPart>, n: nat, render: Json -> string)
    requires n <= |parts| && ConvertBlocks(role, parts[..n], render).Failure?
    ensures ConvertBlocks(role, parts, render) == Failure(ConvertBlocks(role, parts[..n], render).error)
    decreases |parts|
  {
    if n == |parts| {
      assert parts[..n] == parts;
    } else {
      var front := parts[..|parts| - 1];
      assert front[..n] == parts[..n];
      ConvertBlocksFails(role, front, n, render);
    }
  }

  method ConvertMessage(so: Converted, message: Message, render: Json -> string) returns (r: Result<Converted, Error>)
    ensures r == Extend(so, message, render)
  {
    if message.role == System {
      var text := SystemText(message.content);
      match text {
        case Failure(error) => r := Failure(error);
        case Success(text) => r := Success(so.(system := so.system + [text]));
      }
    } else {
      var blocks := ConvertBlocksLoop(message, render);
      match blocks {
        case Failure(error) => r := Failure(error);
        case Success(blocks) => r := Success(so.(wire := Merge(so.wire, WireRoleOf(message.role), blocks)));
      }
    }
  }

  method ConvertMessages(messages: seq<Message>, render: Json -> string)
    returns (r: Result<(Option<string>, seq<WireMessage>), Error>)
    ensures match Convert(messages, render)
            case Failure(error) => r == Failure(error)
            case Success(so) =>
              r == Success((if so.system == [] then None else Some(JoinedByBlankLines(so.system)), so.wire))
    ensures r.Success? ==> r.value.0 == Prompt(messages)
    ensures r.Success? ==> (r.value.0.None? <==> forall m | m in messages :: m.role != System)
  {
    NoPromptExactlyWhen(messages);
    var so := Converted([], []);
    for i := 0 to |messages|
      invariant Convert(messages[..i], render) == Success(so)
    {
      ConvertStep(messages, i, so, render);
      var extended := ConvertMessage(so, messages[i], render);
      if extended.Failure? {
        ConvertFails(messages, i + 1, render);
        return Failure(extended.error);
      }
      so := extended.value;
    }
    assert messages[..|messages|] == messages;
    SystemGoesOut(messages, render);
    return Success((if so.system == [] then None else Some(JoinedByBlankLines(so.system)), so.wire));
  }

  lemma ConvertStep(messages: seq<Message>, i: nat, so: Converted, render: Json -> string)
    requires i < |messages| && Convert(messages[..i], render) == Success(so)
    ensures Convert(messages[..i + 1], render) == Extend(so, messages[i], render)
  {
    assert messages[..i + 1][..i] == messages[..i];
  }

  lemma {:induction false} ConvertFails(messages: seq<Message>, n: nat, render: Json -> string)
    requires n <= |messages| && Convert(messages[..n], render).Failure?
    ensures Convert(messages, render) == Failure(Convert(messages[..n], render).error)
    decreases |messages|
  {
    if n == |messages| {
      assert messages[..n] == messages;
    } else {
      var front := messages[..|messages| - 1];
      assert front[..n] == messages[..n];
      ConvertFails(front, n, render);
    }
  }

  // ---- When it succeeds ----

  /** What the API has a block for on a message of this role. */
  predicate Sendable(role: Role, part: ContentPart) {
    match part
    case Text(_) => true
    case Blob(mimeType, _) => role != System && (mimeType == "application/pdf" || "image/" <= mimeType)
    case Call(_) => role == Assistant
    case Outcome(_, _, _) => role == Tool
    case Other(_) => false
  }

  lemma {:induction false} BlocksConvertExactlyWhen(role: Role, parts: seq<ContentPart>, render: Json -> string)
    requires role != System
    ensures ConvertBlocks(role, parts, render).Success? <==> forall p | p in parts :: Sendable(role, p)
  {
    if parts != [] {
      var last := |parts| - 1;
      BlocksConvertExactlyWhen(role, parts[..last], render);
      assert forall p :: p in parts <==> p in parts[..last] || p == parts[last];
      assert ConvertPart(role, parts[last], render).Success? <==> Sendable(role, parts[last]);
      assert parts[last] in parts;
    }
  }

  lemma {:induction false} SystemConvertsExactlyWhen(parts: seq<ContentPart>)
    ensures SystemText(parts).Success? <==> forall p | p in parts :: Sendable(System, p)
  {
    if parts != [] {
      var last := |parts| - 1;
      SystemConvertsExactlyWhen(parts[..last]);
      assert forall p :: p in parts <==> p in parts[..last] || p == parts[last];
      assert parts[last].Text? <==> Sendable(System, parts[last]);
      assert parts[last] in parts;
    }
  }

  /** A conversation converts exactly when every part of every message may be sent under its role. */
  lemma {:induction false} ConvertsExactlyWhen(messages: seq<Message>, render: Json -> string)
    ensures Convert(messages, render).Success?
       <==> forall m | m in messages :: forall p | p in m.content :: Sendable(m.role, p)
  {
    if messages != [] {
      var last := messages[|messages| - 1];
      ConvertsExactlyWhen(messages[..|messages| - 1], render);
      assert forall m :: m in messages <==> m in messages[..|messages| - 1] || m == last;
      if last.role == System {
        SystemConvertsExactlyWhen(last.content);
      } else {
        BlocksConvertExactlyWhen(last.role, last.content, render);
      }
    }
  }

  /** The first part of these that may not be sent under the role. */
  ghost predicate FirstUnsendable(role: Role, parts: seq<ContentPart>, k: nat) {
    k < |parts| && !Sendable(role, parts[k]) && forall j | 0 <= j < k :: Sendable(role, parts[j])
  }

  lemma {:induction false} BlocksFailAtTheFirst(role: Role, parts: seq<ContentPart>, render: Json -> string)
    returns (k: nat)
    requires role != System && ConvertBlocks(role, parts, render).Failure?
    ensures FirstUnsendable(role, parts, k)
    ensures ConvertBlocks(role, parts, render).error == Unsupported(role, parts[k])
  {
    var front := parts[..|parts| - 1];
    if ConvertBlocks(role, front, render).Failure? {
      k := BlocksFailAtTheFirst(role, front, render);
      assert forall j | 0 <= j <= k :: front[j] == parts[j];
    } else {
      k := |parts| - 1;
      BlocksConvertExactlyWhen(role, front, render);
      assert forall j | 0 <= j < k :: parts[j] == front[j] && front[j] in front;
    }
  }

  lemma {:induction false} SystemFailsAtTheFirst(parts: seq<ContentPart>) returns (k: nat)
    requires SystemText(parts).Failure?
    ensures FirstUnsendable(System, parts, k) && SystemText(parts).error == Unsupported(System, parts[k])
  {
    var front := parts[..|parts| - 1];
    if SystemText(front).Failure? {
      k := SystemFailsAtTheFirst(front);
      assert forall j | 0 <= j <= k :: front[j] == parts[j];
    } else {
      k := |parts| - 1;
      SystemConvertsExactlyWhen(front);
      assert forall j | 0 <= j < k :: parts[j] == front[j] && front[j] in front;
    }
  }

  /** A conversation that does not convert is refused for its first part that may not be sent. */
  lemma {:induction false} ConvertFailsAtTheFirst(messages: seq<Message>, render: Json -> string)
    returns (i: nat, k: nat)
    requires Convert(messages, render).Failure?
    ensures i < |messages| && FirstUnsendable(messages[i].role, messages[i].content, k)
    ensures forall m, p | m in messages[..i] && p in m.content :: Sendable(m.role, p)
    ensures Convert(messages, render).error == Unsupported(messages[i].role, messages[i].content[k])
  {
    var front, last := messages[..|messages| - 1], messages[|messages| - 1];
    if Convert(front, render).Failure? {
      i, k := ConvertFailsAtTheFirst(front, render);
      assert messages[..i] == front[..i];
    } else {
      i := |messages| - 1;
      ConvertsExactlyWhen(front, render);
      if last.role == System {
        k := SystemFailsAtTheFirst(last.content);
      } else {
        k := BlocksFailAtTheFirst(last.role, last.content, render);
      }
    }
  }

  // ---- What the system messages say ----

  /** A system message's text is that of its parts: a text part says itself, and two stretches of parts say
      one and then the other. */
  lemma SystemTextJoin(a: seq<ContentPart>, b: seq<ContentPart>, text: string)
    ensures SystemText([]) == Success("") && SystemText([Text(text)]) == Success(text)
    ensures SystemText(a).Success? && SystemText(b).Success? ==>
              SystemText(a + b) == Success(SystemText(a).value + SystemText(b).value)
  {
    var one := [Text(text)];
    assert one[..0] == [] && "" + text == text;
    if SystemText(a).Success? && SystemText(b).Success? {
      SystemConvertsExactlyWhen(a);
      SystemConvertsExactlyWhen(b);
      SystemConvertsExactlyWhen(a + b);
      SystemTextIs(a);
      SystemTextIs(b);
      SystemTextIs(a + b);
      TextOfJoin(a, b);
    }
  }

  lemma {:induction false} SystemTextIs(parts: seq<ContentPart>)
    requires SystemText(parts).Success?
    ensures SystemText(parts).value == TextOf(parts)
  {
    if parts != [] {
      var front, last := parts[..|parts| - 1], parts[|parts| - 1];
      SystemTextIs(front);
      assert parts == front + [last];
      TextOfJoin(front, [last]);
      assert last.text + "" == last.text;
    }
  }

  lemma {:induction false} JoinedIsSpaced(texts: seq<string>)
    requires texts != []
    ensures JoinedByBlankLines(texts) == Spaced(texts)
  {
    if |texts| == 1 {
      SpacedOne(texts[0]);
      assert texts == [texts[0]];
    } else {
      JoinedIsSpaced(texts[1..]);
      assert texts == [texts[0]] + texts[1..];
      SpacedFirst(texts[0], texts[1..]);
    }
  }

  lemma {:induction false} ConvertKeepsPrompts(messages: seq<Message>, render: Json -> string)
    requires Convert(messages, render).Success?
    ensures Convert(messages, render).value.system == Prompts(messages)
  {
    if messages != [] {
      var front, last := messages[..|messages| - 1], messages[|messages| - 1];
      ConvertKeepsPrompts(front, render);
      ExtendKeepsPrompts(Convert(front, render).value, last, render);
    }
  }

  lemma ExtendKeepsPrompts(so: Converted, message: Message, render: Json -> string)
    requires Extend(so, message, render).Success?
    ensures Extend(so, message, render).value.system == so.system + PromptIn(message)
  {
    if message.role == System {
      SystemTextIs(message.content);
    } else {
      assert so.system + [] == so.system;
    }
  }

  /** The prompt is what the system messages say, in order, a blank line between neighbours; and there is
      none exactly when there is no system message. */
  lemma SystemGoesOut(messages: seq<Message>, render: Json -> string)
    requires Convert(messages, render).Success?
    ensures var texts := Convert(messages, render).value.system;
            && (texts == [] <==> forall m | m in messages :: m.role != System)
            && texts == Prompts(messages)
            && (if texts == [] then None else Some(JoinedByBlankLines(texts))) == Prompt(messages)
  {
    ConvertKeepsPrompts(messages, render);
    NoPromptExactlyWhen(messages);
    if Prompts(messages) != [] {
      JoinedIsSpaced(Prompts(messages));
    }
  }

  // ---- What it keeps ----

  /** A block says what a part said. */
  predicate Carries(block: Block, part: ContentPart, render: Json -> string) {
    match part
    case Text(text) => block == TextBlock(text)
    case Blob(mimeType, data) =>
      (block.Image? || block.Document?) && block.mediaType == mimeType && block.data == data
      && (block.Document? <==> mimeType == "application/pdf")
    case Call(call) => block == ToolUse(call.callId, call.name, call.arguments)
    case Outcome(callId, content, isError) =>
      block == ToolResult(callId, if content.Str? then content else Str(render(content)), isError)
    case Other(_) => false
  }

  ghost predicate CarriesAll(blocks: seq<Block>, parts: seq<ContentPart>, render: Json -> string) {
    |blocks| == |parts| && forall i | 0 <= i < |parts| :: Carries(blocks[i], parts[i], render)
  }

  /** Everything said in `parts` but empty text. */
  function Said(parts: seq<ContentPart>): seq<ContentPart> {
    if parts == [] then []
    else
      var last := parts[|parts| - 1];
      Said(parts[..|parts| - 1]) + (if last == Text("") then [] else [last])
  }

  /** Everything said in the conversation outside its system messages. */
  function SaidIn(messages: seq<Message>): seq<ContentPart> {
    if messages == [] then []
    else
      var last := messages[|messages| - 1];
      SaidIn(messages[..|messages| - 1]) + (if last.role == System then [] else Said(last.content))
  }

  lemma PartIsCarried(role: Role, part: ContentPart, render: Json -> string)
    requires ConvertPart(role, part, render).Success?
    ensures CarriesAll(ConvertPart(role, part, render).value, if part == Text("") then [] else [part], render)
  {
  }

  lemma {:induction false} BlocksCarryWhatWasSaid(role: Role, parts: seq<ContentPart>, render: Json -> string)
    requires ConvertBlocks(role, parts, render).Success?
    ensures CarriesAll(ConvertBlocks(role, parts, render).value, Said(parts), render)
  {
    if parts != [] {
      var front, last := parts[..|parts| - 1], parts[|parts| - 1];
      BlocksCarryWhatWasSaid(role, front, render);
      PartIsCarried(role, last, render);
      CarriesJoin(ConvertBlocks(role, front, render).value, ConvertPart(role, last, render).value, Said(front),
                  if last == Text("") then [] else [last], render);
    }
  }

  function AllBlocks(wire: seq<WireMessage>): seq<Block> {
    if wire == [] then [] else AllBlocks(wire[..|wire| - 1]) + wire[|wire| - 1].content
  }

  ghost predicate WellShaped(wire: seq<WireMessage>) {
    && (forall i | 0 <= i < |wire| :: wire[i].content != [])
    && (forall i, j | 0 <= i < j < |wire| && j == i + 1 :: wire[i].role != wire[j].role)
  }

  lemma AllBlocksOf(front: seq<WireMessage>, last: WireMessage)
    ensures AllBlocks(front + [last]) == AllBlocks(front) + last.content
  {
    assert (front + [last])[..|front + [last]| - 1] == front;
  }

  lemma MergeKeepsBlocks(wire: seq<WireMessage>, role: WireRole, blocks: seq<Block>)
    ensures AllBlocks(Merge(wire, role, blocks)) == AllBlocks(wire) + blocks
  {
    if blocks == [] {
      assert AllBlocks(wire) + [] == AllBlocks(wire);
    } else if wire != [] && wire[|wire| - 1].role == role {
      var front, last := wire[..|wire| - 1], wire[|wire| - 1];
      AllBlocksOf(front, WireMessage(role, last.content + blocks));
      assert wire == front + [last];
      AllBlocksOf(front, last);
      assert AllBlocks(front) + (last.content + blocks) == (AllBlocks(front) + last.content) + blocks;
    } else {
      AllBlocksOf(wire, WireMessage(role, blocks));
    }
  }

  lemma MergeKeepsShape(wire: seq<WireMessage>, role: WireRole, blocks: seq<Block>)
    requires WellShaped(wire)
    ensures WellShaped(Merge(wire, role, blocks))
  {
    var merged, n := Merge(wire, role, blocks), |wire| - 1;
    if blocks != [] {
      assert forall i | 0 <= i < n :: merged[i] == wire[i];
      assert wire != [] ==> merged[n].role == wire[n].role;
    }
  }

  lemma CarriesJoin(a: seq<Block>, b: seq<Block>, saidA: seq<ContentPart>, saidB: seq<ContentPart>,
                    render: Json -> string)
    requires CarriesAll(a, saidA, render) && CarriesAll(b, saidB, render)
    ensures CarriesAll(a + b, saidA + saidB, render)
  {
  }

  /** Turns alternate, none is empty, and the blocks go out in the order they were said, with nothing
      added and nothing but empty text dropped. */
  lemma {:induction false} ConvertKeepsShape(messages: seq<Message>, render: Json -> string)
    requires Convert(messages, render).Success?
    ensures WellShaped(Convert(messages, render).value.wire)
    ensures CarriesAll(AllBlocks(Convert(messages, render).value.wire), SaidIn(messages), render)
  {
    if messages != [] {
      var last := messages[|messages| - 1];
      ConvertKeepsShape(messages[..|messages| - 1], render);
      if last.role != System {
        var wire := Convert(messages[..|messages| - 1], render).value.wire;
        var blocks := ConvertBlocks(last.role, last.content, render).value;
        BlocksCarryWhatWasSaid(last.role, last.content, render);
        MergeKeepsShape(wire, WireRoleOf(last.role), blocks);
        MergeKeepsBlocks(wire, WireRoleOf(last.role), blocks);
        CarriesJoin(AllBlocks(wire), blocks, SaidIn(messages[..|messages| - 1]), Said(last.content), render);
      }
    }
  }

  // ---- Calls and their results ----

  function UseIds(blocks: seq<Block>): seq<string> {
    if blocks == [] then []
    else
      var last := |blocks| - 1;
      UseIds(blocks[..last]) + (if blocks[last].ToolUse? then [blocks[last].id] else [])
  }

  /** The ids of the results a turn opens with. */
  function LeadingResults(blocks: seq<Block>): seq<string> {
    if blocks == [] || !blocks[0].ToolResult? then [] else [blocks[0].toolUseId] + LeadingResults(blocks[1..])
  }

  ghost predicate AllResults(blocks: seq<Block>) {
    forall b | b in blocks :: b.ToolResult?
  }

  ghost predicate NoResults(blocks: seq<Block>) {
    forall b | b in blocks :: !b.ToolResult?
  }

  /** Every result in a turn comes before everything else in it. */
  ghost predicate ResultsLead(blocks: seq<Block>) {
    forall i, j | 0 <= i < j < |blocks| && blocks[j].ToolResult? :: blocks[i].ToolResult?
  }

  lemma {:induction false} LeadingJoin(a: seq<Block>, b: seq<Block>)
    ensures AllResults(a) ==> LeadingResults(a + b) == LeadingResults(a) + LeadingResults(b)
    ensures NoResults(b) ==> LeadingResults(a + b) == LeadingResults(a)
  {
    if a == [] {
      assert a + b == b;
    } else {
      assert (a + b)[1..] == a[1..] + b;
      LeadingJoin(a[1..], b);
    }
  }

  lemma {:induction false} UseIdsJoin(a: seq<Block>, b: seq<Block>)
    ensures UseIds(a + b) == UseIds(a) + UseIds(b)
  {
    if b == [] {
      assert a + b == a;
    } else {
      var last := |b| - 1;
      assert (a + b)[..|a + b| - 1] == a + b[..last];
      UseIdsJoin(a, b[..last]);
    }
  }

  lemma ConvertedPart(role: Role, part: ContentPart, render: Json -> string)
    requires role in {Assistant, User} && ConvertPart(role, part, render).Success?
    ensures var blocks := ConvertPart(role, part, render).value;
            && NoResults(blocks)
            && UseIds(blocks) == if part.Call? then [part.call.callId] else []
    ensures role == User ==> !part.Call?
  {
    var blocks := ConvertPart(role, part, render).value;
    if blocks != [] {
      UseIdsOne(blocks[0]);
      assert blocks == [blocks[0]];
    }
  }

  lemma UseIdsOne(block: Block)
    ensures UseIds([block]) == if block.ToolUse? then [block.id] else []
  {
    assert [block][..0] == [];
  }

  lemma ConvertedLast(role: Role, parts: seq<ContentPart>, render: Json -> string)
    requires role in {Assistant, User} && parts != [] && ConvertBlocks(role, parts, render).Success?
    ensures var front, last := parts[..|parts| - 1], parts[|parts| - 1];
            && ConvertBlocks(role, front, render).Success? && ConvertPart(role, last, render).Success?
            && UseIds(ConvertBlocks(role, parts, render).value)
               == UseIds(ConvertBlocks(role, front, render).value) + (if last.Call? then [last.call.callId] else [])
            && (NoResults(ConvertBlocks(role, front, render).value) ==>
                  NoResults(ConvertBlocks(role, parts, render).value))
            && (role == User ==> !last.Call?)
  {
    var front, last := parts[..|parts| - 1], parts[|parts| - 1];
    ConvertedPart(role, last, render);
    UseIdsJoin(ConvertBlocks(role, front, render).value, ConvertPart(role, last, render).value);
  }

  lemma LastCallId(parts: seq<ContentPart>)
    requires parts != []
    ensures var front, last := parts[..|parts| - 1], parts[|parts| - 1];
            CallIds(CallsIn(parts)) == CallIds(CallsIn(front)) + (if last.Call? then [last.call.callId] else [])
  {
    var front, last := parts[..|parts| - 1], parts[|parts| - 1];
    CallsInSnoc(front, last);
    assert parts == front + [last];
  }

  /** What an assistant turn asks for goes out as exactly its tool_use ids. */
  lemma {:induction false} ConvertedCalls(parts: seq<ContentPart>, render: Json -> string)
    requires ConvertBlocks(Assistant, parts, render).Success?
    ensures UseIds(ConvertBlocks(Assistant, parts, render).value) == CallIds(CallsIn(parts))
    ensures NoResults(ConvertBlocks(Assistant, parts, render).value)
  {
    if parts != [] {
      ConvertedLast(Assistant, parts, render);
      ConvertedCalls(parts[..|parts| - 1], render);
      LastCallId(parts);
    }
  }

  lemma {:induction false} ConvertedUserTurn(parts: seq<ContentPart>, render: Json -> string)
    requires ConvertBlocks(User, parts, render).Success?
    ensures NoResults(ConvertBlocks(User, parts, render).value)
    ensures UseIds(ConvertBlocks(User, parts, render).value) == []
  {
    if parts != [] {
      ConvertedLast(User, parts, render);
      ConvertedUserTurn(parts[..|parts| - 1], render);
    }
  }

  lemma ConvertedAnswer(message: Message, id: string, render: Json -> string)
    requires MoveOf(message) == Answer(id)
    ensures var r := ConvertBlocks(Tool, message.content, render);
            r.Success? && |r.value| == 1 && r.value[0].ToolResult? && r.value[0].toolUseId == id
  {
    assert message.content == [message.content[0]];
    assert message.content[..0] == [];
  }

  /** A user turn opens with the results of exactly the calls of the turn before it, and no turn has a
      result anywhere else. */
  ghost predicate TurnPaired(wire: seq<WireMessage>, i: int)
    requires 0 <= i < |wire|
  {
    match wire[i].role
    case UserRole =>
      && LeadingResults(wire[i].content) == (if i == 0 then [] else UseIds(wire[i - 1].content))
      && ResultsLead(wire[i].content)
    case AssistantRole => NoResults(wire[i].content)
  }

  /** Every call goes out with its result at the head of the very next turn. */
  ghost predicate CallsPaired(wire: seq<WireMessage>) {
    && (forall i | 0 <= i < |wire| :: TurnPaired(wire, i))
    && (wire != [] && wire[|wire| - 1].role == AssistantRole ==> UseIds(wire[|wire| - 1].content) == [])
  }

  /** `CallsPaired` part way through a transcript that still owes answers to `open`. */
  ghost predicate PairedSoFar(wire: seq<WireMessage>, open: seq<string>) {
    var n := |wire| - 1;
    && (forall i | 0 <= i < n :: TurnPaired(wire, i))
    && (wire == [] ==> open == [])
    && (wire != [] ==>
          match wire[n].role
          case AssistantRole => NoResults(wire[n].content) && UseIds(wire[n].content) == open
          case UserRole =>
            && LeadingResults(wire[n].content) + open == (if n == 0 then [] else UseIds(wire[n - 1].content))
            && ResultsLead(wire[n].content)
            && (open != [] ==> AllResults(wire[n].content)))
  }

  lemma PairedWhenDone(wire: seq<WireMessage>)
    requires PairedSoFar(wire, [])
    ensures CallsPaired(wire)
  {
    forall i | 0 <= i < |wire| ensures TurnPaired(wire, i) {
      if wire[i].role == UserRole {
        assert LeadingResults(wire[i].content) + [] == LeadingResults(wire[i].content);
      }
    }
  }

  lemma TurnPairedStays(wire: seq<WireMessage>, wire': seq<WireMessage>, i: int)
    requires 0 <= i < |wire| && i < |wire'| && wire[..i + 1] == wire'[..i + 1] && TurnPaired(wire, i)
    ensures TurnPaired(wire', i)
  {
    assert wire'[i] == wire'[..i + 1][i] == wire[..i + 1][i] == wire[i];
    if i > 0 {
      assert wire'[i - 1] == wire'[..i + 1][i - 1] == wire[..i + 1][i - 1] == wire[i - 1];
    }
  }

  /** What the turns before the last one satisfy survives a merge. */
  lemma EarlierTurnsStay(wire: seq<WireMessage>, role: WireRole, blocks: seq<Block>)
    requires blocks != [] && forall i | 0 <= i < |wire| - 1 :: TurnPaired(wire, i)
    ensures var wire' := Merge(wire, role, blocks);
            forall i | 0 <= i < |wire| - 1 :: i < |wire'| && TurnPaired(wire', i)
  {
    var wire' := Merge(wire, role, blocks);
    forall i | 0 <= i < |wire| - 1 ensures i < |wire'| && TurnPaired(wire', i) {
      assert wire[..i + 1] == wire'[..i + 1];
      TurnPairedStays(wire, wire', i);
    }
  }

  lemma AssistantExtends(wire: seq<WireMessage>, blocks: seq<Block>)
    requires wire != [] && wire[|wire| - 1].role == AssistantRole && PairedSoFar(wire, [])
    requires blocks != [] && NoResults(blocks)
    ensures PairedSoFar(Merge(wire, AssistantRole, blocks), UseIds(blocks))
  {
    EarlierTurnsStay(wire, AssistantRole, blocks);
    UseIdsJoin(wire[|wire| - 1].content, blocks);
  }

  lemma AssistantPushed(wire: seq<WireMessage>, blocks: seq<Block>)
    requires wire == [] || wire[|wire| - 1].role == UserRole
    requires PairedSoFar(wire, []) && blocks != [] && NoResults(blocks)
    ensures PairedSoFar(Merge(wire, AssistantRole, blocks), UseIds(blocks))
  {
    PairedWhenDone(wire);
    PushedStays(wire, WireMessage(AssistantRole, blocks));
  }

  lemma AssistantMerges(wire: seq<WireMessage>, blocks: seq<Block>)
    requires WellShaped(wire) && PairedSoFar(wire, []) && NoResults(blocks)
    ensures PairedSoFar(Merge(wire, AssistantRole, blocks), UseIds(blocks))
  {
    if blocks != [] {
      if wire != [] && wire[|wire| - 1].role == AssistantRole {
        AssistantExtends(wire, blocks);
      } else {
        AssistantPushed(wire, blocks);
      }
    }
  }

  lemma UserExtends(wire: seq<WireMessage>, blocks: seq<Block>)
    requires wire != [] && wire[|wire| - 1].role == UserRole && PairedSoFar(wire, [])
    requires blocks != [] && NoResults(blocks)
    ensures PairedSoFar(Merge(wire, UserRole, blocks), [])
  {
    EarlierTurnsStay(wire, UserRole, blocks);
    LeadingJoin(wire[|wire| - 1].content, blocks);
  }

  lemma UserMerges(wire: seq<WireMessage>, blocks: seq<Block>)
    requires WellShaped(wire) && PairedSoFar(wire, []) && NoResults(blocks)
    ensures PairedSoFar(Merge(wire, UserRole, blocks), [])
  {
    if blocks != [] {
      if wire != [] && wire[|wire| - 1].role == UserRole {
        UserExtends(wire, blocks);
      } else {
        NoResultsLead(blocks);
        UserTurnPushed(wire, blocks, []);
      }
    }
  }

  lemma NoResultsLead(blocks: seq<Block>)
    requires NoResults(blocks)
    ensures LeadingResults(blocks) == [] && ResultsLead(blocks)
  {
    assert blocks != [] ==> blocks[0] in blocks;
  }

  /** A new user turn after an assistant turn, or at the start, that opens with what it must. */
  lemma PushedStays(wire: seq<WireMessage>, turn: WireMessage)
    requires forall i | 0 <= i < |wire| :: TurnPaired(wire, i)
    ensures forall i | 0 <= i < |wire| :: TurnPaired(wire + [turn], i)
  {
    forall i | 0 <= i < |wire| ensures TurnPaired(wire + [turn], i) {
      assert (wire + [turn])[..i + 1] == wire[..i + 1];
      TurnPairedStays(wire, wire + [turn], i);
    }
  }

  lemma UserTurnPushed(wire: seq<WireMessage>, blocks: seq<Block>, open: seq<string>)
    requires blocks != [] && (wire == [] || wire[|wire| - 1].role == AssistantRole)
    requires forall i | 0 <= i < |wire| - 1 :: TurnPaired(wire, i)
    requires wire != [] ==> NoResults(wire[|wire| - 1].content)
    requires LeadingResults(blocks) + open == (if wire == [] then [] else UseIds(wire[|wire| - 1].content))
    requires ResultsLead(blocks) && (open != [] ==> AllResults(blocks))
    ensures PairedSoFar(Merge(wire, UserRole, blocks), open)
  {
    var turn := WireMessage(UserRole, blocks);
    assert wire != [] ==> TurnPaired(wire, |wire| - 1);
    PushedStays(wire, turn);
    assert Merge(wire, UserRole, blocks) == wire + [turn];
  }

  lemma AnswerMerges(wire: seq<WireMessage>, result: Block, open: seq<string>)
    requires WellShaped(wire) && open != [] && PairedSoFar(wire, open)
    requires result.ToolResult? && result.toolUseId == open[0]
    ensures PairedSoFar(Merge(wire, UserRole, [result]), open[1..])
  {
    assert LeadingResults([result]) == [open[0]];
    assert [open[0]] + open[1..] == open;
    if wire[|wire| - 1].role == UserRole {
      AnswerJoins(wire, result, open);
    } else {
      UserTurnPushed(wire, [result], open[1..]);
    }
  }

  lemma AnswerJoins(wire: seq<WireMessage>, result: Block, open: seq<string>)
    requires open != [] && PairedSoFar(wire, open) && wire[|wire| - 1].role == UserRole
    requires result.ToolResult? && LeadingResults([result]) == [open[0]]
    ensures PairedSoFar(Merge(wire, UserRole, [result]), open[1..])
  {
    var content := wire[|wire| - 1].content;
    EarlierTurnsStay(wire, UserRole, [result]);
    LeadingJoin(content, [result]);
    assert (LeadingResults(content) + [open[0]]) + open[1..] == LeadingResults(content) + open;
    forall b | b in content + [result] ensures b.ToolResult? {
      assert b in content || b == result;
    }
  }

  /** What one more message leaves open is what its blocks leave open on the wire. */
  lemma ExtendPairs(so: Converted, message: Message, open: seq<string>, render: Json -> string)
    requires WellShaped(so.wire) && PairedSoFar(so.wire, open)
    requires Extend(so, message, render).Success? && Follow(open, MoveOf(message)).Some?
    ensures PairedSoFar(Extend(so, message, render).value.wire, Follow(open, MoveOf(message)).value)
  {
    match message.role
    case System =>
    case Assistant =>
      ConvertedCalls(message.content, render);
      AssistantMerges(so.wire, ConvertBlocks(Assistant, message.content, render).value);
    case User =>
      ConvertedUserTurn(message.content, render);
      UserMerges(so.wire, ConvertBlocks(User, message.content, render).value);
    case Tool =>
      AnswerExtends(so.wire, message, open, render);
  }

  lemma AnswerExtends(wire: seq<WireMessage>, message: Message, open: seq<string>, render: Json -> string)
    requires WellShaped(wire) && PairedSoFar(wire, open)
    requires message.role == Tool && Follow(open, MoveOf(message)).Some?
    requires ConvertBlocks(Tool, message.content, render).Success?
    ensures PairedSoFar(Merge(wire, UserRole, ConvertBlocks(Tool, message.content, render).value), open[1..])
    ensures Follow(open, MoveOf(message)).value == open[1..]
  {
    ConvertedAnswer(message, open[0], render);
    var blocks := ConvertBlocks(Tool, message.content, render).value;
    assert blocks == [blocks[0]];
    AnswerMerges(wire, blocks[0], open);
  }

  lemma {:induction false} ConvertPairsCalls(messages: seq<Message>, render: Json -> string)
    requires Convert(messages, render).Success? && Unanswered(messages).Some?
    ensures PairedSoFar(Convert(messages, render).value.wire, Unanswered(messages).value)
  {
    if messages != [] {
      var front, last := messages[..|messages| - 1], messages[|messages| - 1];
      assert messages == front + [last];
      assert Moves(messages)[..|front|] == Moves(front);
      ConvertPairsCalls(front, render);
      ConvertKeepsShape(front, render);
      UnansweredExtends(front, last, Unanswered(front).value);
      ExtendPairs(Convert(front, render).value, last, Unanswered(front).value, render);
    }
  }

  /** End to end: a transcript with every call answered, whenever it converts at all, goes out as
      alternating non-empty turns carrying every block in order, each turn's tool_use ids answered by
      exactly the tool_result ids that open the very next turn. */
  lemma AnsweredTranscriptsConvertWell(messages: seq<Message>, render: Json -> string)
    requires EveryCallAnswered(messages) && Convert(messages, render).Success?
    ensures var wire := Convert(messages, render).value.wire;
            WellShaped(wire) && CallsPaired(wire) && CarriesAll(AllBlocks(wire), SaidIn(messages), render)
    ensures Convert(messages, render).value.system == Prompts(messages)
  {
    ConvertKeepsPrompts(messages, render);
    NothingOpenMeansAnswered(messages);
    ConvertKeepsShape(messages, render);
    ConvertPairsCalls(messages, render);
    PairedWhenDone(Convert(messages, render).value.wire);
  }
}
