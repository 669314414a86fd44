/** The error type shared by every Lambda: thirteen variants, each with a fixed API code,
    an HTTP status and a display text of the form "<title>: <detail>". */
module Errors {
  datatype Error =
    | StreamNotFound(detail: string)
    | StreamAlreadyExists(detail: string)
    | SubscriptionNotFound(detail: string)
    | SubscriptionAlreadyExists(detail: string)
    | InvalidStreamId(detail: string)
    | InvalidSubscriptionId(detail: string)
    | InvalidCursor(detail: string)
    | InvalidEventKey(detail: string)
    | Validation(detail: string)
    | Database(detail: string)
    /** A JSON (de)serialisation failure; `detail` is the JSON library's message. */
    | Serialization(detail: string)
    | DynamoSerialization(detail: string)
    | Internal(detail: string)

  /** The machine-readable code sent in error bodies. */
  function Code(e: Error): string {
    match e
    case StreamNotFound(_) => "stream_not_found"
    case StreamAlreadyExists(_) => "stream_already_exists"
    case SubscriptionNotFound(_) => "subscription_not_found"
    case SubscriptionAlreadyExists(_) => "subscription_already_exists"
    case InvalidStreamId(_) => "invalid_stream_id"
    case InvalidSubscriptionId(_) => "invalid_subscription_id"
    case InvalidCursor(_) => "invalid_cursor"
    case InvalidEventKey(_) => "invalid_event_key"
    case Validation(_) => "validation_error"
    case Database(_) => "database_error"
    case Serialization(_) => "serialization_error"
    case DynamoSerialization(_) => "serialization_error"
    case Internal(_) => "internal_error"
  }

  /** The HTTP status of an error reply: one of four, each standing for exactly one
      family of errors. */
  function Status(e: Error): (s: int)
    ensures s in {400, 404, 409, 500}
    ensures s == 404 <==> IsNotFound(e)
    ensures s == 409 <==> IsConflict(e)
    ensures s == 400 <==> IsBadRequest(e)
    ensures s == 500 <==> e.Database? || e.DynamoSerialization? || e.Internal?
  {
    match e
    case StreamNotFound(_) => 404
    case StreamAlreadyExists(_) => 409
    case SubscriptionNotFound(_) => 404
    case SubscriptionAlreadyExists(_) => 409
    case InvalidStreamId(_) => 400
    case InvalidSubscriptionId(_) => 400
    case InvalidCursor(_) => 400
    case InvalidEventKey(_) => 400
    case Validation(_) => 400
    case Database(_) => 500
    case Serialization(_) => 400
    case DynamoSerialization(_) => 500
    case Internal(_) => 500
  }

  /** The title that the display text puts before the detail. */
  function Title(e: Error): string {
    match e
    case StreamNotFound(_) => "Stream not found"
    case StreamAlreadyExists(_) => "Stream already exists"
    case SubscriptionNotFound(_) => "Subscription not found"
    case SubscriptionAlreadyExists(_) => "Subscription already exists"
    case InvalidStreamId(_) => "Invalid stream ID"
    case InvalidSubscriptionId(_) => "Invalid subscription ID"
    case InvalidCursor(_) => "Invalid cursor"
    case InvalidEventKey(_) => "Invalid event key"
    case Validation(_) => "Validation error"
    case Database(_) => "Database error"
    case Serialization(_) => "Serialization error"
    case DynamoSerialization(_) => "DynamoDB serialization error"
    case Internal(_) => "Internal error"
  }

  /** The `Display` text of an error. */
  function Display(e: Error): (s: string)
    ensures |s| > |e.detail| + 2 && s[|s| - |e.detail|..] == e.detail
    ensures s[|s| - |e.detail| - 2..|s| - |e.detail|] == ": "
  {
    Title(e) + ": " + e.detail
  }

  /** The text before the detail depends on the variant alone: changing the detail
      changes only the tail. */
  lemma DisplayPrefixFixed(e: Error, d: string)
    ensures var s := Display(e);
      Display(e.(detail := d)) == s[..|s| - |e.detail|] + d
  {
    assert Title(e.(detail := d)) == Title(e);
  }

  /** Errors about a missing resource: the 404 family. */
  predicate IsNotFound(e: Error) {
    e.StreamNotFound? || e.SubscriptionNotFound?
  }

  /** Errors about a resource that already exists: the 409 family. */
  predicate IsConflict(e: Error) {
    e.StreamAlreadyExists? || e.SubscriptionAlreadyExists?
  }

  /** Errors the client caused by what it sent: the 400 family. */
  predicate IsBadRequest(e: Error) {
    e.InvalidStreamId? || e.InvalidSubscriptionId? || e.InvalidCursor? || e.InvalidEventKey?
    || e.Validation? || e.Serialization?
  }

  /** The code names the variant: two errors share a code exactly when they are the same
      variant, except the two serialisation variants, which share "serialization_error". */
  lemma CodeIdentifiesVariant(a: Error, b: Error)
    ensures Code(a) == Code(b) <==>
      a.(detail := "") == b.(detail := "")
      || ((a.Serialization? || a.DynamoSerialization?) && (b.Serialization? || b.DynamoSerialization?))
  {
  }

  /** The shared code is the one place where the code does not determine the status:
      a JSON error is the client's fault (400), a store conversion error is not (500). */
  lemma SharedCodeDifferentStatus(m: string)
    ensures Code(Serialization(m)) == Code(DynamoSerialization(m))
    ensures Status(Serialization(m)) == 400 && Status(DynamoSerialization(m)) == 500
  {
  }

  /** Apart from that pair, the code determines the status. */
  lemma CodeDeterminesStatus(a: Error, b: Error)
    requires Code(a) == Code(b) && Code(a) != "serialization_error"
    ensures Status(a) == Status(b)
  {
    CodeIdentifiesVariant(a, b);
  }

  /** The display text keeps the detail recoverable: two errors of the same variant
      display the same text only when their details are equal. */
  lemma DisplayInjective(a: Error, b: Error)
    requires a.(detail := "") == b.(detail := "") && Display(a) == Display(b)
    ensures a == b
  {
    assert Title(a) == Title(b);
    assert a.detail == Display(a)[|Title(a)| + 2..];
  }

  lemma DisplayExample()
    ensures Display(StreamNotFound("orders")) == "Stream not found: orders"
    ensures Code(StreamNotFound("orders")) == "stream_not_found" && Status(StreamNotFound("orders")) == 404
    ensures Code(Validation("stream_id is required")) == "validation_error"
    ensures Status(Validation("stream_id is required")) == 400
  {
  }
}
