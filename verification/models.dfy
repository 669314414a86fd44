/** The domain records exchanged by the Lambdas and kept in the table, with the defaults
    that request decoding fills in. Timestamps are whole numbers on one clock. */
module Models {
  import opened Wrappers
  import opened Numbers

  /** A JSON value. Numbers keep their text: nothing here computes with them. */
  datatype Json =
    | Null
    | Bool(b: bool)
    | Number(text: string)
    | Str(s: string)
    | Array(items: seq<Json>)
    | Object(members: seq<(string, Json)>)

  const DEFAULT_PARTITION_COUNT: u32 := 3
  const DEFAULT_RETENTION_HOURS: u32 := 168
  const DEFAULT_BATCH_SIZE: u32 := 100

  datatype Stream = Stream(streamId: string, partitionCount: u32, retentionHours: u32, createdAt: int)

  /** A new stream takes its settings unchanged and is stamped with the current time. */
  function NewStream(streamId: string, partitionCount: u32, retentionHours: u32, now: int): (s: Stream)
    ensures s.streamId == streamId && s.partitionCount == partitionCount
    ensures s.retentionHours == retentionHours && s.createdAt == now
  {
    Stream(streamId, partitionCount, retentionHours, now)
  }

  datatype CreateStreamRequest = CreateStreamRequest(streamId: string, partitionCount: u32, retentionHours: u32)

  /** The request as decoding builds it from the fields the body carries: an absent
      partition count becomes 3 and an absent retention becomes 168 hours (7 days). */
  function DecodeCreateStreamRequest(streamId: string, partitionCount: Option<u32>, retentionHours: Option<u32>)
    : (r: CreateStreamRequest)
    ensures r.streamId == streamId
    ensures partitionCount.None? ==> r.partitionCount == 3
    ensures partitionCount.Some? ==> r.partitionCount == partitionCount.value
    ensures retentionHours.None? ==> r.retentionHours == 168
    ensures retentionHours.Some? ==> r.retentionHours == retentionHours.value
  {
    CreateStreamRequest(streamId, partitionCount.GetOr(DEFAULT_PARTITION_COUNT), retentionHours.GetOr(DEFAULT_RETENTION_HOURS))
  }

  datatype Event = Event(
    streamId: string,
    partition: u32,
    sequence: u64,
    key: string,
    eventType: string,
    data: Json,
    timestamp: int)

  /** One event of a publish request; `eventType` travels as the JSON field "type". */
  datatype PublishEvent = PublishEvent(key: string, eventType: string, data: Json)

  datatype PublishedEvent = PublishedEvent(streamId: string, partition: u32, sequence: u64, key: string, timestamp: int)

  datatype Subscription = Subscription(streamId: string, subscriptionId: string, createdAt: int)

  datatype StartFrom = Earliest | Latest | Compacted

  datatype CreateSubscriptionRequest = CreateSubscriptionRequest(subscriptionId: string, startFrom: StartFrom)

  /** An absent `start_from` means `Latest`. */
  function DecodeCreateSubscriptionRequest(subscriptionId: string, startFrom: Option<StartFrom>)
    : (r: CreateSubscriptionRequest)
    ensures r.subscriptionId == subscriptionId
    ensures startFrom.None? ==> r.startFrom == Latest
    ensures startFrom.Some? ==> r.startFrom == startFrom.value
  {
    CreateSubscriptionRequest(subscriptionId, startFrom.GetOr(Latest))
  }

  /** The snake_case JSON string of a start position. */
  function StartFromName(s: StartFrom): string {
    match s
    case Earliest => "earliest"
    case Latest => "latest"
    case Compacted => "compacted"
  }

  /** Decoding a start position accepts exactly the three snake_case names, each
      giving back the position it names. */
  function ParseStartFrom(name: string): (r: Option<StartFrom>)
    ensures forall s :: r == Some(s) <==> StartFromName(s) == name
  {
    if name == "earliest" then Some(Earliest)
    else if name == "latest" then Some(Latest)
    else if name == "compacted" then Some(Compacted)
    else None
  }

  datatype PollRequest = PollRequest(limit: u32)

  /** An absent limit means a batch of 100. */
  function DecodePollRequest(limit: Option<u32>): (r: PollRequest)
    ensures limit.None? ==> r.limit == 100
    ensures limit.Some? ==> r.limit == limit.value
  {
    PollRequest(limit.GetOr(DEFAULT_BATCH_SIZE))
  }

  /** `remaining` is always sent as 0. */
  datatype PollResponse = PollResponse(events: seq<Event>, cursor: string, remaining: u64)

  datatype PartitionOffset = PartitionOffset(partition: u32, offset: u64)

  /** What a cursor token carries: one offset per partition. */
  datatype CursorState = CursorState(offsets: seq<PartitionOffset>)

  datatype CommitRequest = CommitRequest(cursor: string)

  /** The latest event seen for one key of a stream. */
  datatype CompactedEvent = CompactedEvent(
    streamId: string,
    key: string,
    eventType: string,
    data: Json,
    sequence: u64,
    partition: u32,
    timestamp: int)

  datatype ErrorResponse = ErrorResponse(error: string, message: string, details: Option<Json>)

  function NewErrorResponse(error: string, message: string): (r: ErrorResponse)
    ensures r.error == error && r.message == message && r.details.None?
  {
    ErrorResponse(error, message, None)
  }

  function WithDetails(r: ErrorResponse, details: Json): (r': ErrorResponse)
    ensures r'.details == Some(details)
    ensures r'.error == r.error && r'.message == r.message
  {
    r.(details := Some(details))
  }

  /** The JSON object of an error body; `details` is written only when present. */
  function ErrorResponseJson(r: ErrorResponse): (j: Json)
    ensures j.Object?
    ensures (exists i :: 0 <= i < |j.members| && j.members[i].0 == "details") <==> r.details.Some?
  {
    var base := [("error", Str(r.error)), ("message", Str(r.message))];
    var members := if r.details.Some? then base + [("details", r.details.value)] else base;
    assert r.details.Some? ==> members[2].0 == "details";
    Object(members)
  }
}
