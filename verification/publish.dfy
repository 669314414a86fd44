/** The publish Lambda: `POST /streams/{stream_id}/events` with one event, a JSON array
    of events, or an object with an `events` array. */
module Publish {
  import opened Wrappers
  import opened Strings
  import opened Numbers
  import opened Keys
  import opened Models
  import opened Errors
  import opened Store
  import opened Dynamo
  import opened Http
  import Utf8
  import Partitioner
  import Sequencing

  /** The body shapes the handler tells apart before parsing. */
  datatype Shape = EventArray | EventsWrapper | SingleEvent

  const EVENTS_FIELD := "\"events\""

  /** A body whose trimmed text starts with `[` is an array; otherwise one that mentions
      `"events"` anywhere is a `PublishRequest`; anything else is a single event. */
  function ShapeOf(text: string): (s: Shape)
    ensures s == EventArray <==> StartsWith(TrimStart(text), "[")
    ensures s == EventsWrapper <==> !StartsWith(TrimStart(text), "[") && Contains(text, EVENTS_FIELD)
    ensures s == SingleEvent <==> !StartsWith(TrimStart(text), "[") && !Contains(text, EVENTS_FIELD)
  {
    TrimStartsWith(text, '[');
    if StartsWith(Trim(text), "[") then EventArray
    else if Contains(text, EVENTS_FIELD) then EventsWrapper
    else SingleEvent
  }

  /** serde_json's readers for the three shapes: a `Vec<PublishEvent>`, the `events` of a
      `PublishRequest`, and one `PublishEvent`. */
  datatype Readers = Readers(
    list: string -> Option<seq<PublishEvent>>,
    wrapper: string -> Option<seq<PublishEvent>>,
    single: string -> Option<PublishEvent>)

  /** The events of a body, read with the reader its shape selects. */
  function DecodeBody(text: string, readers: Readers): (r: Option<seq<PublishEvent>>)
    ensures ShapeOf(text) == EventArray ==> r == readers.list(text)
    ensures ShapeOf(text) == EventsWrapper ==> r == readers.wrapper(text)
    ensures ShapeOf(text) == SingleEvent ==>
      (r.Some? <==> readers.single(text).Some?) && (r.Some? ==> r.value == [readers.single(text).value])
  {
    match ShapeOf(text)
    case EventArray => readers.list(text)
    case EventsWrapper => readers.wrapper(text)
    case SingleEvent =>
      match readers.single(text)
      case None => None
      case Some(e) => Some([e])
  }

  /** The reply to a body with no events. */
  const NO_EVENTS: Reply := Respond(400, ErrorBody(NewErrorResponse("validation_error", "No events provided")))

  /** The publish handler. A missing path parameter, a body that is not UTF-8 or that its
      reader rejects, and a panic are failures of the handler; an empty list is a 400
      without touching the store; otherwise `publish_events` runs and its error, if any,
      becomes the error reply. */
  function Handler(t: Table, f: Faults, sha256: seq<byte> -> Partitioner.Digest, req: Request, readers: Readers,
                   now: int): (r: Handled)
    ensures "stream_id" !in req.pathParams ==> r == Handled(t, Crash("Missing stream_id"))
    ensures "stream_id" in req.pathParams && Utf8.Decode(req.body).None? ==> r == Handled(t, Crash(INVALID_BODY))
    ensures ("stream_id" in req.pathParams && Utf8.Decode(req.body).Some?
             && DecodeBody(Utf8.Decode(req.body).value, readers) == Some([])) ==> r == Handled(t, NO_EVENTS)
    ensures r.reply.Crash? ==> r.table == t
    ensures r.table != t ==>
      && "stream_id" in req.pathParams && Utf8.Decode(req.body).Some?
      && DecodeBody(Utf8.Decode(req.body).value, readers).Some?
      && r.table == PublishEvents(t, f, sha256, req.pathParams["stream_id"],
                                  DecodeBody(Utf8.Decode(req.body).value, readers).value, now).table
    ensures r.reply.Respond? && r.reply.status == 200 ==>
      && "stream_id" in req.pathParams && Utf8.Decode(req.body).Some?
      && DecodeBody(Utf8.Decode(req.body).value, readers).Some?
      && var events := DecodeBody(Utf8.Decode(req.body).value, readers).value;
         var p := PublishEvents(t, f, sha256, req.pathParams["stream_id"], events, now);
         |events| > 0 && p.outcome.Done? && r == Handled(p.table, Respond(200, PublishBody(p.outcome.value)))
    ensures ("stream_id" in req.pathParams && Utf8.Decode(req.body).Some?
             && DecodeBody(Utf8.Decode(req.body).value, readers).None?) ==> r == Handled(t, Crash(UNREADABLE_BODY))
    ensures ("stream_id" in req.pathParams && Utf8.Decode(req.body).Some?
             && DecodeBody(Utf8.Decode(req.body).value, readers).Some?) ==>
      r == HandleEvents(t, f, sha256, req.pathParams["stream_id"],
                        DecodeBody(Utf8.Decode(req.body).value, readers).value, now)
    ensures ("stream_id" in req.pathParams && Utf8.Decode(req.body).Some?
             && DecodeBody(Utf8.Decode(req.body).value, readers).Some?
             && |DecodeBody(Utf8.Decode(req.body).value, readers).value| > 0) ==>
      var p := PublishEvents(t, f, sha256, req.pathParams["stream_id"],
                             DecodeBody(Utf8.Decode(req.body).value, readers).value, now);
      && (p.outcome.Done? ==> r == Handled(p.table, Respond(200, PublishBody(p.outcome.value))))
      && (p.outcome.Failed? ==> r == Handled(p.table, ErrorReply(p.outcome.error)))
  {
    if "stream_id" !in req.pathParams then Handled(t, Crash("Missing stream_id"))
    else
      var streamId := req.pathParams["stream_id"];
      match Utf8.Decode(req.body)
      case None => Handled(t, Crash(INVALID_BODY))
      case Some(text) =>
        match DecodeBody(text, readers)
        case None => Handled(t, Crash(UNREADABLE_BODY))
        case Some(events) => HandleEvents(t, f, sha256, streamId, events, now)
  }

  /** The handler once the body has been read: no events is a 400 without touching the
      store; otherwise the events are published, and success is a 200 listing them, a
      failure the error's reply with its status and code, and a panic a failure of the
      handler that leaves nothing written. */
  function HandleEvents(t: Table, f: Faults, sha256: seq<byte> -> Partitioner.Digest, streamId: string,
                        events: seq<PublishEvent>, now: int): (r: Handled)
    ensures |events| == 0 ==> r == Handled(t, NO_EVENTS)
    ensures |events| > 0 ==>
      var p := PublishEvents(t, f, sha256, streamId, events, now);
      && (p.outcome.Done? ==> r == Handled(p.table, Respond(200, PublishBody(p.outcome.value))))
      && (p.outcome.Failed? ==> r == Handled(p.table, ErrorReply(p.outcome.error)))
      && (p.outcome.Panicked? ==> r == Handled(t, Crash(p.outcome.message)))
    ensures r.reply.Crash? ==> r.table == t
    ensures r.table != t ==> r.table == PublishEvents(t, f, sha256, streamId, events, now).table
    ensures r.reply.Respond? && r.reply.status == 200 ==>
      var p := PublishEvents(t, f, sha256, streamId, events, now);
      |events| > 0 && p.outcome.Done? && r == Handled(p.table, Respond(200, PublishBody(p.outcome.value)))
  {
    if |events| == 0 then Handled(t, NO_EVENTS)
    else
      var p := PublishEvents(t, f, sha256, streamId, events, now);
      match p.outcome
      case Done(published) => Handled(p.table, Respond(200, PublishBody(published)))
      case Failed(e) => Handled(p.table, ErrorReply(e))
      case Panicked(message) => Handled(t, Crash(message))
  }

  /** Leading whitespace does not hide an array. */
  lemma LeadingWhitespaceArray(ws: string, rest: string)
    requires forall i :: 0 <= i < |ws| ==> IsWhitespace(ws[i])
    ensures ShapeOf(ws + "[" + rest) == EventArray
    decreases |ws|
  {
    if |ws| > 0 {
      assert (ws + "[" + rest)[1..] == ws[1..] + "[" + rest;
      LeadingWhitespaceArray(ws[1..], rest);
    } else {
      assert ws + "[" + rest == "[" + rest;
    }
  }

  /** A 200 reply lists one reference per event of the body, in body order, each naming
      the stream, the event's key and the call's timestamp, and each stored in the table
      the handler leaves under the key of its partition and sequence. */
  lemma PublishedAreStored(t: Table, f: Faults, sha256: seq<byte> -> Partitioner.Digest, req: Request,
                           readers: Readers, now: int)
    ensures var r := Handler(t, f, sha256, req, readers, now);
      r.reply.Respond? && r.reply.status == 200 ==>
        var events := DecodeBody(Utf8.Decode(req.body).value, readers).value;
        var ps := r.reply.body.published;
        var streamId := req.pathParams["stream_id"];
        && |ps| == |events| > 0
        && forall i :: 0 <= i < |ps| ==>
             && ps[i].streamId == streamId && ps[i].key == events[i].key && ps[i].timestamp == now
             && EventKey(streamId, ps[i].partition, ps[i].sequence) in r.table
             && r.table[EventKey(streamId, ps[i].partition, ps[i].sequence)]
                == EventItem(StoredEvent(streamId, ps[i].partition, ps[i].sequence, events[i], now))
  {
    var r := Handler(t, f, sha256, req, readers, now);
    if r.reply.Respond? && r.reply.status == 200 {
      var events := DecodeBody(Utf8.Decode(req.body).value, readers).value;
      Sequencing.PublishEventsSequences(t, f, sha256, req.pathParams["stream_id"], events, now);
      Sequencing.PublishEventsStores(t, f, sha256, req.pathParams["stream_id"], events, now);
    }
  }
}
