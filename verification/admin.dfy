/** The admin Lambda: stream and subscription management, routed on the method and the
    request path. */
module Admin {
  import opened Wrappers
  import opened Strings
  import opened Numbers
  import opened Models
  import opened Errors
  import opened Store
  import opened Dynamo
  import opened Http
  import opened Keys
  import Lifecycle
  import Utf8

  datatype Route =
    | CreateStreamRoute
    | ListStreamsRoute
    | GetStreamRoute
    | DeleteStreamRoute
    | CreateSubscriptionRoute
    | DeleteSubscriptionRoute
    | NoRoute

  const STREAMS := "/streams"
  const STREAMS_SLASH := "/streams/"
  const SUBSCRIPTIONS := "/subscriptions"

  /** A path under one stream that is not about its subscriptions. */
  predicate StreamPath(path: string) {
    StartsWith(path, STREAMS_SLASH) && !Contains(path, SUBSCRIPTIONS)
  }

  /** The facts about paths that make the arms' conditions exclusive. */
  lemma PathFacts(path: string)
    ensures Contains(path, SUBSCRIPTIONS + "/") ==> Contains(path, SUBSCRIPTIONS)
    ensures path == STREAMS ==> !StreamPath(path) && !Contains(path, SUBSCRIPTIONS)
  {
    if Contains(path, SUBSCRIPTIONS + "/") {
      ContainsPrefixOf(path, SUBSCRIPTIONS, "/");
    }
    if path == STREAMS {
      ContainsIffOccurs(path, SUBSCRIPTIONS);
    }
  }

  /** The arms of the handler's `match`, tried in order; the first that matches wins. */
  function RouteOf(httpMethod: string, path: string): (r: Route)
    ensures r == CreateStreamRoute <==> httpMethod == "POST" && path == STREAMS
    ensures r == ListStreamsRoute <==> httpMethod == "GET" && path == STREAMS
    ensures r == GetStreamRoute <==> httpMethod == "GET" && StreamPath(path)
    ensures r == DeleteStreamRoute <==> httpMethod == "DELETE" && StreamPath(path)
    ensures r == CreateSubscriptionRoute <==>
      httpMethod == "POST" && Contains(path, SUBSCRIPTIONS) && !EndsWith(path, "/poll") && !EndsWith(path, "/commit")
    ensures r == DeleteSubscriptionRoute <==> httpMethod == "DELETE" && Contains(path, SUBSCRIPTIONS + "/")
  {
    PathFacts(path);
    if httpMethod == "POST" && path == STREAMS then CreateStreamRoute
    else if httpMethod == "GET" && path == STREAMS then ListStreamsRoute
    else if httpMethod == "GET" && StreamPath(path) then GetStreamRoute
    else if httpMethod == "DELETE" && StreamPath(path) then DeleteStreamRoute
    else if httpMethod == "POST" && Contains(path, SUBSCRIPTIONS) && !EndsWith(path, "/poll") && !EndsWith(path, "/commit")
    then CreateSubscriptionRoute
    else if httpMethod == "DELETE" && Contains(path, SUBSCRIPTIONS + "/") then DeleteSubscriptionRoute
    else NoRoute
  }

  /** serde_json's readers for the two request bodies the admin Lambda accepts. */
  datatype Readers = Readers(
    stream: string -> Option<CreateStreamRequest>,
    subscription: string -> Option<CreateSubscriptionRequest>)

  /** The reply to a store call that returns a value: `ok` of the value with `status`, or
      the error reply. */
  function StepReply<T>(outcome: Outcome<T>, status: int, ok: T -> Body): (r: Reply)
    ensures outcome.Done? ==> r == Respond(status, ok(outcome.value))
    ensures outcome.Failed? ==> r == ErrorReply(outcome.error)
    ensures outcome.Panicked? ==> r == Crash(outcome.message)
  {
    match outcome
    case Done(v) => Respond(status, ok(v))
    case Failed(e) => ErrorReply(e)
    case Panicked(m) => Crash(m)
  }

  /** The body of a request read as UTF-8 and then by `read`; a failure of either is a
      failure of the handler. */
  function ReadBody<T>(body: seq<byte>, read: string -> Option<T>): (r: Result<T, string>)
    ensures Utf8.Decode(body).None? ==> r == Err(INVALID_BODY)
    ensures r.Ok? <==> Utf8.Decode(body).Some? && read(Utf8.Decode(body).value).Some?
    ensures r.Ok? ==> r.value == read(Utf8.Decode(body).value).value
  {
    match Utf8.Decode(body)
    case None => Err(INVALID_BODY)
    case Some(text) =>
      match read(text)
      case None => Err(UNREADABLE_BODY)
      case Some(v) => Ok(v)
  }

  /** `POST /streams`: the body is read as a `CreateStreamRequest` and the stream created;
      201 with the stream. */
  function CreateStreamReply(t: Table, f: Faults, body: seq<byte>, readers: Readers, now: int): (r: Handled)
    ensures r.reply.Crash? <==> ReadBody(body, readers.stream).Err?
    ensures r.reply.Crash? ==> r.table == t
    ensures r.reply.Respond? ==> r.reply.status in {201, 400, 404, 409, 500}
    ensures ReadBody(body, readers.stream).Ok? ==>
      var s := CreateStream(t, f, ReadBody(body, readers.stream).value, now);
      && r.table == s.table
      && (r.reply.Respond? && r.reply.status == 201 <==> s.outcome.Done?)
      && (s.outcome.Done? ==> r.reply.body == StreamBody(s.outcome.value))
      && (s.outcome.Failed? ==> r.reply == ErrorReply(s.outcome.error))
  {
    var request := ReadBody(body, readers.stream);
    if request.Err? then Handled(t, Crash(request.error))
    else
      var s := CreateStream(t, f, request.value, now);
      Handled(s.table, StepReply(s.outcome, 201, (stream: Stream) => StreamBody(stream)))
  }

  /** `GET /streams`: 200 with every stream. */
  function ListStreamsReply(t: Table, f: Faults): (r: Reply)
    ensures r.Respond? && r.status in {200, 400, 404, 409, 500}
    ensures r.status == 200 <==> ListStreams(t, f).Ok?
    ensures ListStreams(t, f).Ok? ==> r.body == StreamsBody(ListStreams(t, f).value)
  {
    var streams := ListStreams(t, f);
    if streams.Err? then ErrorReply(streams.error)
    else Respond(200, StreamsBody(streams.value))
  }

  /** `GET /streams/{stream_id}`: 200 with the stream. */
  function GetStreamReply(t: Table, f: Faults, streamId: string): (r: Reply)
    ensures r.Respond? && r.status in {200, 400, 404, 409, 500}
    ensures r.status == 200 <==> GetStream(t, f, streamId).Ok?
    ensures GetStream(t, f, streamId).Ok? ==> r.body == StreamBody(GetStream(t, f, streamId).value)
  {
    var stream := GetStream(t, f, streamId);
    if stream.Err? then ErrorReply(stream.error)
    else Respond(200, StreamBody(stream.value))
  }

  /** `DELETE /streams/{stream_id}`: 200 with a success body once the stream is gone. */
  function DeleteStreamReply(t: Table, f: Faults, streamId: string): (r: Handled)
    ensures r.reply.Crash? ==> r.table == t
    ensures r.reply.Respond? ==> r.reply.status in {200, 400, 404, 409, 500}
    ensures r.table == DeleteStream(t, f, streamId).table
    ensures r.reply == Respond(200, SuccessBody(true)) <==> DeleteStream(t, f, streamId).outcome.Done?
    ensures DeleteStream(t, f, streamId).outcome.Failed? ==> r.reply == ErrorReply(DeleteStream(t, f, streamId).outcome.error)
  {
    var s := DeleteStream(t, f, streamId);
    Handled(s.table, StepReply(s.outcome, 200, (_: ()) => SuccessBody(true)))
  }

  /** `POST .../subscriptions`: the body is read as a `CreateSubscriptionRequest` and the
      subscription created; 201 with the subscription. */
  function CreateSubscriptionReply(t: Table, f: Faults, streamId: string, body: seq<byte>, readers: Readers,
                                   now: int): (r: Handled)
    ensures r.reply.Crash? <==> ReadBody(body, readers.subscription).Err?
    ensures r.reply.Crash? ==> r.table == t
    ensures r.reply.Respond? ==> r.reply.status in {201, 400, 404, 409, 500}
    ensures ReadBody(body, readers.subscription).Ok? ==>
      var s := CreateSubscription(t, f, streamId, ReadBody(body, readers.subscription).value, now);
      && r.table == s.table
      && (r.reply.Respond? && r.reply.status == 201 <==> s.outcome.Done?)
      && (s.outcome.Done? ==> r.reply.body == SubscriptionBody(s.outcome.value))
      && (s.outcome.Failed? ==> r.reply == ErrorReply(s.outcome.error))
  {
    var request := ReadBody(body, readers.subscription);
    if request.Err? then Handled(t, Crash(request.error))
    else
      var s := CreateSubscription(t, f, streamId, request.value, now);
      Handled(s.table, StepReply(s.outcome, 201, (sub: Subscription) => SubscriptionBody(sub)))
  }

  /** The admin handler. */
  function Handler(t: Table, f: Faults, req: Request, readers: Readers, now: int): (r: Handled)
    ensures r.reply.Crash? ==> r.table == t
    ensures r.reply.Respond? ==> r.reply.status in {200, 201, 400, 404, 409, 500}
    ensures r.reply.Respond? && r.reply.status == 201 ==>
      RouteOf(req.httpMethod, req.path) in {CreateStreamRoute, CreateSubscriptionRoute}
    ensures RouteOf(req.httpMethod, req.path) !in {CreateStreamRoute, DeleteStreamRoute, CreateSubscriptionRoute} ==>
      r.table == t
    ensures RouteOf(req.httpMethod, req.path) == NoRoute ==> r.reply == NOT_FOUND
    ensures RouteOf(req.httpMethod, req.path) == DeleteSubscriptionRoute ==> r.reply == Respond(200, SuccessBody(true))
    ensures (RouteOf(req.httpMethod, req.path) in {GetStreamRoute, DeleteStreamRoute, CreateSubscriptionRoute}
             && "stream_id" !in req.pathParams) ==> r == Handled(t, Crash("Missing stream_id"))
    ensures RouteOf(req.httpMethod, req.path) == CreateStreamRoute ==>
      r == CreateStreamReply(t, f, req.body, readers, now)
    ensures RouteOf(req.httpMethod, req.path) == ListStreamsRoute ==> r == Handled(t, ListStreamsReply(t, f))
    ensures RouteOf(req.httpMethod, req.path) == GetStreamRoute && "stream_id" in req.pathParams ==>
      r == Handled(t, GetStreamReply(t, f, req.pathParams["stream_id"]))
    ensures RouteOf(req.httpMethod, req.path) == DeleteStreamRoute && "stream_id" in req.pathParams ==>
      r == DeleteStreamReply(t, f, req.pathParams["stream_id"])
    ensures RouteOf(req.httpMethod, req.path) == CreateSubscriptionRoute && "stream_id" in req.pathParams ==>
      r == CreateSubscriptionReply(t, f, req.pathParams["stream_id"], req.body, readers, now)
  {
    match RouteOf(req.httpMethod, req.path)
    case CreateStreamRoute => CreateStreamReply(t, f, req.body, readers, now)
    case ListStreamsRoute => Handled(t, ListStreamsReply(t, f))
    case GetStreamRoute =>
      if "stream_id" !in req.pathParams then Handled(t, Crash("Missing stream_id"))
      else Handled(t, GetStreamReply(t, f, req.pathParams["stream_id"]))
    case DeleteStreamRoute =>
      if "stream_id" !in req.pathParams then Handled(t, Crash("Missing stream_id"))
      else DeleteStreamReply(t, f, req.pathParams["stream_id"])
    case CreateSubscriptionRoute =>
      if "stream_id" !in req.pathParams then Handled(t, Crash("Missing stream_id"))
      else CreateSubscriptionReply(t, f, req.pathParams["stream_id"], req.body, readers, now)
    case DeleteSubscriptionRoute => Handled(t, Respond(200, SuccessBody(true)))
    case NoRoute => Handled(t, NOT_FOUND)
  }

  /** Deleting a subscription answers success and changes nothing: the subscription and
      its offsets can still be read afterwards. */
  lemma DeleteSubscriptionKeeps(t: Table, f: Faults, req: Request, readers: Readers, now: int,
                                streamId: string, subscriptionId: string, g: Faults)
    requires req.httpMethod == "DELETE" && Contains(req.path, SUBSCRIPTIONS + "/")
    ensures var r := Handler(t, f, req, readers, now);
      && r.reply == Respond(200, SuccessBody(true))
      && GetSubscription(r.table, g, streamId, subscriptionId) == GetSubscription(t, g, streamId, subscriptionId)
  {
  }

  /** A created stream is answered with 201 and can then be fetched by `GET` with the
      same body. */
  lemma CreateThenGet(t: Table, f: Faults, req: Request, readers: Readers, now: int, get: Request, g: Faults)
    requires req.httpMethod == "POST" && req.path == STREAMS
    requires Handler(t, f, req, readers, now).reply.Respond? && Handler(t, f, req, readers, now).reply.status == 201
    requires get.httpMethod == "GET" && StreamPath(get.path)
    requires "stream_id" in get.pathParams
    requires get.pathParams["stream_id"] == readers.stream(Utf8.Decode(req.body).value).value.streamId
    requires Get(MetaKey(get.pathParams["stream_id"])) !in g
    ensures Handler(Handler(t, f, req, readers, now).table, g, get, readers, now).reply
      == Respond(200, Handler(t, f, req, readers, now).reply.body)
  {
    var request := readers.stream(Utf8.Decode(req.body).value).value;
    Lifecycle.CreateThenGetStream(t, f, request, now, g);
  }
}
