/** What a route handler hands back to the HTTP layer, and the application's
    last error handler. */
module Http {
  import opened Json

  datatype Response = Response(status: nat, body: Value)

  /** A handler either answers itself or passes an error on with `next(error)`. */
  datatype HandlerResult = Respond(response: Response) | Forward

  /** `response.status(status).json({ message })`. */
  function Fail(status: nat, text: string): Response {
    Response(status, Message(text))
  }

  /** The response the client finally receives: an error passed on reaches the
      fallback handler registered last on the application. */
  function Deliver(h: HandlerResult): (r: Response)
    ensures h.Forward? ==> r.status == 500 && r.body == Message("Erro interno no servidor.")
    ensures h.Respond? ==> r == h.response
  {
    match h
    case Respond(res) => res
    case Forward => Fail(500, "Erro interno no servidor.")
  }
}
