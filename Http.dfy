/** What an HTTP exchange with a provider gives back, as the core sees it:
    the request could not be sent, or a status code with a body that did
    or did not parse as JSON. */
module Http {
  import opened Wrappers
  import Json

  datatype Reply =
    | SendFailed
    | Received(status: int, body: Option<Json.Value>)

  /** reqwest's `StatusCode::is_success`: the 2xx range. */
  predicate IsSuccess(status: int)
  {
    200 <= status < 300
  }

  /** A reply with a success status and a body that parsed. */
  predicate ParsedOk(reply: Reply)
  {
    reply.Received? && IsSuccess(reply.status) && reply.body.Some?
  }
}
