/** The values that travel between the layers of the gateway. */
module GatewayModel {

  datatype Option<+T> = None | Some(value: T)

  function Min(a: int, b: int): int
  {
    if a <= b then a else b
  }

  datatype Error = Error(code: string, message: string)

  const PROVIDER_ERROR := "provider_error"
  const CIRCUIT_OPEN := "circuit_breaker_open"
  const INTERNAL_ERROR := "internal_error"
  const INVALID_REQUEST := "invalid_request"

  datatype Message = Message(role: string, content: string)

  /** The parts of a response that the gateway reads or writes. */
  datatype Response = Response(id: string, model: string, provider: string, content: string)

  datatype Reply = Ok(response: Response) | Err(error: Error)

  /** The embedder: a vector for every text; `None` stands for its error. */
  type Embedder = seq<string> -> Option<seq<seq<real>>>

  /** The text the cache and the semantic router work on: the last non-empty user message. */
  function LastUserText(messages: seq<Message>): (text: string)
  {
    if |messages| == 0 then ""
    else
      var last := messages[|messages| - 1];
      if last.role == "user" && last.content != "" then last.content
      else LastUserText(messages[..|messages| - 1])
  }
}
