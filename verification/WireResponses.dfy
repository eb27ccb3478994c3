/** A whole response, converted at once. */
module WireResponses {
  import opened Wrappers
  import opened JsonValues
  import opened Conversation
  import opened StreamEvents

  datatype Body = Body(content: seq<Json>, stopReason: Option<string>, usage: Option<Usage>)

  datatype Response = Response(message: Message, finish: FinishReason, usage: Option<Usage>)

  /** One response block. Kinds not modelled are kept as they came. */
  function ConvertBlock(block: Json): Result<ContentPart, Error> {
    match block.GetStr("type")
    case None => Success(Other(block))
    case Some(kind) =>
      if kind == "text" then
        Success(Text(match block.GetStr("text") case Some(text) => text case None => ""))
      else if kind == "tool_use" then
        match block.GetStr("id")
        case None => Failure(NoId)
        case Some(id) =>
          match block.GetStr("name")
          case None => Failure(NoName)
          case Some(name) =>
            var input := block.Get("input");
            Success(Call(ToolCall(id, name, if input.Some? then input.value else EMPTY_OBJECT)))
      else Success(Other(block))
  }

  /** Every block, in order, or the first that fails. */
  function ConvertBlocks(blocks: seq<Json>): Result<seq<ContentPart>, Error> {
    if blocks == [] then Success([])
    else
      match ConvertBlock(blocks[0])
      case Failure(error) => Failure(error)
      case Success(part) =>
        match ConvertBlocks(blocks[1..])
        case Failure(error) => Failure(error)
        case Success(parts) => Success([part] + parts)
  }

  function ConvertResponse(body: Body): Result<Response, Error> {
    match ConvertBlocks(body.content)
    case Failure(error) => Failure(error)
    case Success(content) =>
      var askedForTools := exists part :: part in content && part.Call?;
      Success(Response(Message(Assistant, content),
                       if askedForTools then ToolCalls else MapStopReason(body.stopReason),
                       body.usage))
  }
}
