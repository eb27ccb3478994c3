/** From the runs of a session to the messages a model is sent. */
module EndToEnd {
  import opened JsonValues
  import opened AgentDrivers
  import opened WireMessages
  import opened SystemPrompts

  /** Whatever a session's runs did and however each ended, its transcript, whenever it converts, goes
      out with alternating non-empty turns, everything said in order, and every call answered at the
      head of the very next turn. */
  lemma SessionsConvertWell(requests: seq<Request>, render: Json -> string)
    requires forall request | request in requests :: Serviceable(request)
    ensures var log := SessionLog([], requests);
            match Convert(log, render)
            case Failure(_) => true
            case Success(so) =>
              && WellShaped(so.wire) && CallsPaired(so.wire) && CarriesAll(AllBlocks(so.wire), SaidIn(log), render)
              && so.system == Prompts(log)
  {
    var log := SessionLog([], requests);
    SessionAnswersEveryCall(requests);
    if Convert(log, render).Success? {
      AnsweredTranscriptsConvertWell(log, render);
    }
  }
}
