/** The HTTP surface shared by the Lambdas: a request as the handlers see it, and a
    reply, which is either a response with a status and a body or a handler failure
    (an `Err` returned to the Lambda runtime, or a panic). Bodies are kept as the
    values the handlers serialise; their JSON text is not modelled. */
module Http {
  import opened Wrappers
  import opened Numbers
  import opened Models
  import opened Errors
  import opened Store

  datatype Request = Request(
    httpMethod: string,
    path: string,
    pathParams: map<string, string>,
    query: map<string, string>,
    body: seq<byte>)

  datatype Body =
    | ErrorBody(response: ErrorResponse)
    | StreamBody(stream: Stream)
    /** `ListStreamsResponse`; the scan's order is not modelled. */
    | StreamsBody(streams: set<Stream>)
    | SubscriptionBody(subscription: Subscription)
    /** `PublishResponse`. */
    | PublishBody(published: seq<PublishedEvent>)
    | PollBody(poll: PollResponse)
    /** `DeleteResponse` and `CommitResponse`. */
    | SuccessBody(success: bool)

  datatype Reply = Respond(status: int, body: Body) | Crash(message: string)

  /** A handler's reply together with the table it leaves behind. */
  datatype Handled = Handled(table: Table, reply: Reply)

  /** `error_response`: the error's status, and a body with its code and display text. */
  function ErrorReply(e: Error): (r: Reply)
    ensures r.Respond? && r.body.ErrorBody? && r.body.response.details.None?
    ensures r.status in {400, 404, 409, 500}
    ensures r.status == 404 <==> IsNotFound(e)
    ensures r.status == 409 <==> IsConflict(e)
    ensures r.body.response.error == Code(e)
    ensures r.body.response.message == Display(e)
  {
    Respond(Status(e), ErrorBody(NewErrorResponse(Code(e), Display(e))))
  }

  /** The reply of every Lambda to a route it does not serve. */
  const NOT_FOUND: Reply := Respond(404, ErrorBody(NewErrorResponse("not_found", "Endpoint not found")))

  /** The failure a handler returns when the body is not UTF-8. */
  const INVALID_BODY := "Invalid UTF-8 in body"

  /** The failure a handler returns when serde_json cannot read the body. */
  const UNREADABLE_BODY := "invalid JSON body"
}
