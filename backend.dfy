/** What an OpenRouter chat-completion request can come back with. The HTTP exchange itself is not
    modelled; each client receives one of these outcomes as an input. */
module Backend {
  import opened Text

  /** The body of an answered request: either the first choice's message content, or a reason
      why `response.json()["choices"][0]["message"]["content"]` raised. */
  datatype Body = Completion(content: String) | Malformed(error: String)

  /** A request either got an HTTP status and body, timed out, or raised another exception with
      the given message. `TimedOut` stands for `asyncio.TimeoutError` only: a timeout raised by
      the `httpx` client is not one, so it takes the generic handler and is a `Raised`. */
  datatype Reply =
    | Answered(status: int, body: Body)
    | TimedOut
    | Raised(error: String)

  /** Status 200 with a readable completion: the only outcome every client treats as success. */
  predicate Delivered(reply: Reply) {
    reply.Answered? && reply.status == 200 && reply.body.Completion?
  }

  /** The delivered content. */
  function Content(reply: Reply): String
    requires Delivered(reply)
  {
    reply.body.content
  }
}
