/** The compactor Lambda: it reads the table's change feed and keeps, for every key of
    every stream, the event with the highest sequence seen so far. */
module Compactor {
  import opened Wrappers
  import opened Strings
  import opened Numbers
  import opened Keys
  import opened Models
  import opened Errors
  import opened Store
  import opened Dynamo
  import Lifecycle

  /** A DynamoDB attribute value as the change feed delivers it. `Other` stands for the
      binary and set types, which no field of an event uses. */
  datatype AttributeValue =
    | S(s: string)
    | N(n: string)
    | Bool(b: bool)
    | Null
    | M(m: map<string, AttributeValue>)
    | L(l: seq<AttributeValue>)
    | Other

  type Image = map<string, AttributeValue>

  /** A change-feed record: the kind of change and the item's new image. */
  datatype Record = Record(eventName: string, newImage: Image)

  function GetString(av: AttributeValue): (r: Option<string>)
    ensures r.Some? <==> av.S?
    ensures r.Some? ==> r.value == av.s
  {
    if av.S? then Some(av.s) else None
  }

  function GetNumberStr(av: AttributeValue): (r: Option<string>)
    ensures r.Some? <==> av.N?
    ensures r.Some? ==> r.value == av.n
  {
    if av.N? then Some(av.n) else None
  }

  /** A string attribute of the image, if present with that type. */
  function StringField(image: Image, name: string): (r: Option<string>)
    ensures r.Some? <==> name in image && image[name].S?
    ensures r.Some? ==> image[name] == S(r.value)
  {
    if name in image then GetString(image[name]) else None
  }

  /** A number attribute of the image read as an unsigned integer of maximum `max`. */
  function NumberField(image: Image, name: string, max: nat): (r: Option<nat>)
    ensures r.Some? <==> name in image && image[name].N? && ParseUnsigned(image[name].n, max).Some?
    ensures r.Some? ==> r.value <= max && ParseUnsigned(image[name].n, max) == Some(r.value)
  {
    if name in image && GetNumberStr(image[name]).Some? then ParseUnsigned(GetNumberStr(image[name]).value, max)
    else None
  }

  /** The payload: a string attribute is parsed as JSON text (with `parseJson` standing for
      serde_json); a map attribute becomes an empty object; anything else, or a string
      that does not parse, is `null`. */
  function DataOf(image: Image, parseJson: string -> Option<Json>): (d: Json)
    ensures "data" !in image ==> d == Json.Null
    ensures "data" in image && image["data"].M? ==> d == Object([])
    ensures "data" in image && image["data"].S? ==> d == parseJson(image["data"].s).GetOr(Json.Null)
  {
    if "data" !in image then Json.Null
    else match image["data"]
      case S(s) => parseJson(s).GetOr(Json.Null)
      case M(_) => Object([])
      case _ => Json.Null
  }

  /** The timestamp: a string attribute read as RFC 3339 (with `parseTime` standing for
      chrono's parser); when absent or unreadable, the time of processing. */
  function TimestampOf(image: Image, parseTime: string -> Option<int>, now: int): (ts: int)
    ensures StringField(image, "timestamp").None? ==> ts == now
    ensures StringField(image, "timestamp").Some? ==> ts == parseTime(StringField(image, "timestamp").value).GetOr(now)
  {
    match StringField(image, "timestamp")
    case None => now
    case Some(s) => parseTime(s).GetOr(now)
  }

  /** What a record holds for the compactor. */
  datatype Decoded = Ignored | Malformed(message: string) | Compact(event: CompactedEvent)

  /** A record counts when it inserts or modifies an item whose sort key is an event's;
      its fields are then read in order, the first missing one naming the failure, and a
      record with all five decodes. */
  function Decode(record: Record, parseJson: string -> Option<Json>, parseTime: string -> Option<int>, now: int)
    : (r: Decoded)
    ensures var image := record.newImage;
      r.Ignored? <==>
        || (record.eventName != "INSERT" && record.eventName != "MODIFY")
        || |image| == 0
        || !StartsWith(StringField(image, "SK").GetOr(""), SEQ_PREFIX)
    ensures var image := record.newImage;
      r.Compact? ==>
        && StringField(image, "stream_id") == Some(r.event.streamId)
        && StringField(image, "key") == Some(r.event.key)
        && StringField(image, "event_type") == Some(r.event.eventType)
        && NumberField(image, "sequence", U64_MAX) == Some(r.event.sequence as nat)
        && NumberField(image, "partition", U32_MAX) == Some(r.event.partition as nat)
        && r.event.data == DataOf(image, parseJson)
        && r.event.timestamp == TimestampOf(image, parseTime, now)
    ensures var image := record.newImage;
      !r.Ignored? ==>
        && (StringField(image, "stream_id").None? <==> r == Malformed("Missing stream_id"))
        && (r == Malformed("Missing key") ==> StringField(image, "key").None?)
        && (r == Malformed("Missing event_type") ==> StringField(image, "event_type").None?)
        && (r == Malformed("Missing or invalid sequence") ==> NumberField(image, "sequence", U64_MAX).None?)
        && (r == Malformed("Missing or invalid partition") ==> NumberField(image, "partition", U32_MAX).None?)
    ensures var image := record.newImage;
      !r.Ignored? && StringField(image, "stream_id").Some? ==>
        && (StringField(image, "key").None? ==> r == Malformed("Missing key"))
        && (StringField(image, "key").Some? && StringField(image, "event_type").None? ==>
              r == Malformed("Missing event_type"))
        && (StringField(image, "key").Some? && StringField(image, "event_type").Some?
            && NumberField(image, "sequence", U64_MAX).None? ==>
              r == Malformed("Missing or invalid sequence"))
        && (StringField(image, "key").Some? && StringField(image, "event_type").Some?
            && NumberField(image, "sequence", U64_MAX).Some?
            && NumberField(image, "partition", U32_MAX).None? ==>
              r == Malformed("Missing or invalid partition"))
        && (StringField(image, "key").Some? && StringField(image, "event_type").Some?
            && NumberField(image, "sequence", U64_MAX).Some?
            && NumberField(image, "partition", U32_MAX).Some? ==>
              r.Compact?)
  {
    var image := record.newImage;
    if (record.eventName != "INSERT" && record.eventName != "MODIFY") || |image| == 0
       || !StartsWith(StringField(image, "SK").GetOr(""), SEQ_PREFIX) then Ignored
    else if StringField(image, "stream_id").None? then Malformed("Missing stream_id")
    else if StringField(image, "key").None? then Malformed("Missing key")
    else if StringField(image, "event_type").None? then Malformed("Missing event_type")
    else if NumberField(image, "sequence", U64_MAX).None? then Malformed("Missing or invalid sequence")
    else if NumberField(image, "partition", U32_MAX).None? then Malformed("Missing or invalid partition")
    else
      Compact(CompactedEvent(
        StringField(image, "stream_id").value,
        StringField(image, "key").value,
        StringField(image, "event_type").value,
        DataOf(image, parseJson),
        NumberField(image, "sequence", U64_MAX).value,
        NumberField(image, "partition", U32_MAX).value,
        TimestampOf(image, parseTime, now)))
  }

  /** The new image of an event item as the publisher writes it: the event's fields plus
      its keys, with the timestamp as text and the payload as an attribute. */
  function EventImage(e: Event, timestamp: string, data: AttributeValue): Image {
    map[
      "PK" := S(PartitionPk(e.streamId, e.partition)),
      "SK" := S(SeqSk(e.sequence)),
      "stream_id" := S(e.streamId),
      "partition" := N(Decimal(e.partition)),
      "sequence" := N(Decimal(e.sequence)),
      "key" := S(e.key),
      "event_type" := S(e.eventType),
      "data" := data,
      "timestamp" := S(timestamp)]
  }

  /** An inserted event decodes to its compacted form: every field but the payload comes
      through unchanged, and the timestamp does whenever its text reads back. A map
      payload, which is how an object is stored, arrives as an empty object, so its
      content is lost; only a string payload that parses as JSON keeps a value. */
  lemma EventImageDecodes(e: Event, timestamp: string, data: AttributeValue, parseJson: string -> Option<Json>,
                          parseTime: string -> Option<int>, now: int)
    requires parseTime(timestamp) == Some(e.timestamp)
    ensures var image := EventImage(e, timestamp, data);
      Decode(Record("INSERT", image), parseJson, parseTime, now)
        == Compact(CompactedEvent(e.streamId, e.key, e.eventType, DataOf(image, parseJson), e.sequence,
                                  e.partition, e.timestamp))
    ensures DataOf(EventImage(e, timestamp, data), parseJson)
      == match data
         case M(_) => Object([])
         case S(text) => parseJson(text).GetOr(Json.Null)
         case _ => Json.Null
  {
    EventImageFields(e, timestamp, data);
  }

  /** Each field of an event's image reads back as the event's own value. */
  lemma EventImageFields(e: Event, timestamp: string, data: AttributeValue)
    ensures var image := EventImage(e, timestamp, data);
      && |image| != 0
      && StringField(image, "SK") == Some(SeqSk(e.sequence))
      && StringField(image, "stream_id") == Some(e.streamId)
      && StringField(image, "key") == Some(e.key)
      && StringField(image, "event_type") == Some(e.eventType)
      && NumberField(image, "sequence", U64_MAX) == Some(e.sequence as nat)
      && NumberField(image, "partition", U32_MAX) == Some(e.partition as nat)
      && StringField(image, "timestamp") == Some(timestamp)
      && "data" in image && image["data"] == data
  {
    var image := EventImage(e, timestamp, data);
    assert "PK" in image;
    assert image["SK"] == S(SeqSk(e.sequence));
    assert image["stream_id"] == S(e.streamId);
    assert image["key"] == S(e.key);
    assert image["event_type"] == S(e.eventType);
    assert image["sequence"] == N(Decimal(e.sequence));
    assert image["partition"] == N(Decimal(e.partition));
    assert image["timestamp"] == S(timestamp);
    assert image["data"] == data;
    ParseDecimal(e.sequence, U64_MAX);
    ParseDecimal(e.partition, U32_MAX);
  }

  // ---------------------------------------------------------------------------
  // Processing a record
  // ---------------------------------------------------------------------------

  /** What happens when the lookup of the current compacted row fails. */
  datatype OnReadError =
    /** As written: the failure is ignored and the record is written. */
    | WriteAnyway
    /** Corrected: the record is not written and its processing fails. */
    | SkipRecord

  /** The table after a record, and the failure reported for it, if any. */
  datatype Processed = Processed(table: Table, error: Option<string>)

  /** `process_record`: a decoded event replaces the compacted row of its key unless the
      row holds a sequence at least as high. */
  function ProcessRecord(t: Table, f: Faults, record: Record, parseJson: string -> Option<Json>,
                         parseTime: string -> Option<int>, now: int, onError: OnReadError): (r: Processed)
    ensures r.table == t || (
      && Decode(record, parseJson, parseTime, now).Compact?
      && var c := Decode(record, parseJson, parseTime, now).event;
         Put(CompactKey(c.streamId, c.key)) !in f
         && r.table == t[CompactKey(c.streamId, c.key) := CompactedItem(c)])
    ensures Decode(record, parseJson, parseTime, now).Ignored? ==> r == Processed(t, None)
    ensures Decode(record, parseJson, parseTime, now).Malformed? ==>
      r == Processed(t, Some(Decode(record, parseJson, parseTime, now).message))
  {
    match Decode(record, parseJson, parseTime, now)
    case Ignored => Processed(t, None)
    case Malformed(message) => Processed(t, Some(message))
    case Compact(c) => ProcessEvent(t, f, c, onError)
  }

  /** The part of `process_record` after decoding: the row's current event is looked up
      and the decoded one is written unless the row is at least as new. */
  function ProcessEvent(t: Table, f: Faults, c: CompactedEvent, onError: OnReadError): (r: Processed)
    ensures r.table == t || (Put(CompactKey(c.streamId, c.key)) !in f
                             && r.table == t[CompactKey(c.streamId, c.key) := CompactedItem(c)])
  {
    var existing := GetCompacted(t, f, c.streamId, c.key);
    if existing.Ok? && existing.value.Some? && existing.value.value.sequence >= c.sequence then Processed(t, None)
    else if existing.Err? && onError == SkipRecord then
      Processed(t, Some("Failed to get compacted: " + Display(existing.error)))
    else
      var p := PutCompacted(t, f, c);
      if p.outcome.Done? then Processed(p.table, None)
      else Processed(p.table, Some("Failed to put compacted: " + Display(p.outcome.error)))
  }

  /** Processing keeps the table well formed. */
  lemma ProcessWellFormed(t: Table, f: Faults, record: Record, parseJson: string -> Option<Json>,
                          parseTime: string -> Option<int>, now: int, onError: OnReadError)
    requires WellFormed(t)
    ensures WellFormed(ProcessRecord(t, f, record, parseJson, parseTime, now, onError).table)
  {
    var d := Decode(record, parseJson, parseTime, now);
    if d.Compact? {
      Lifecycle.PutCompactedWellFormed(t, f, d.event);
    }
  }

  /** Redelivery is harmless: processing a record a second time changes nothing more. */
  lemma ProcessIdempotent(t: Table, f: Faults, record: Record, parseJson: string -> Option<Json>,
                          parseTime: string -> Option<int>, now: int, onError: OnReadError)
    ensures var t1 := ProcessRecord(t, f, record, parseJson, parseTime, now, onError).table;
      ProcessRecord(t1, f, record, parseJson, parseTime, now, onError).table == t1
  {
    var d := Decode(record, parseJson, parseTime, now);
    var t1 := ProcessRecord(t, f, record, parseJson, parseTime, now, onError).table;
    if d.Compact? && t1 != t {
      var c := d.event;
      var k := CompactKey(c.streamId, c.key);
      assert t1 == t[k := CompactedItem(c)];
      RewriteSame(t1, k, CompactedItem(c));
      if Get(k) !in f {
        assert GetCompacted(t1, f, c.streamId, c.key) == Ok(Some(c));
      }
    }
  }

  /** Writing back the item a key already holds leaves the table as it was. */
  lemma RewriteSame(t: Table, k: Key, item: Item)
    requires k in t && t[k] == item
    ensures t[k := item] == t
  {
  }

  /** As written, a failed lookup lets an older record overwrite a newer row: a row at a
      higher sequence, a redelivered record at a lower one, and a read that fails leave
      the row regressed to the older event. */
  lemma ReadFailureRegresses(t: Table, f: Faults, record: Record, parseJson: string -> Option<Json>,
                             parseTime: string -> Option<int>, now: int, newer: CompactedEvent)
    requires Decode(record, parseJson, parseTime, now).Compact?
    requires var c := Decode(record, parseJson, parseTime, now).event;
      && CompactKey(c.streamId, c.key) in t && t[CompactKey(c.streamId, c.key)] == CompactedItem(newer)
      && c.sequence < newer.sequence
      && Get(CompactKey(c.streamId, c.key)) in f && Put(CompactKey(c.streamId, c.key)) !in f
    ensures var c := Decode(record, parseJson, parseTime, now).event;
      var t' := ProcessRecord(t, f, record, parseJson, parseTime, now, WriteAnyway).table;
      t'[CompactKey(c.streamId, c.key)] == CompactedItem(c) && c.sequence < newer.sequence
  {
  }

  /** The sequence of every compacted row is at least `floor`'s. */
  predicate Dominates(t: Table, floor: Table) {
    forall k :: k in floor && floor[k].CompactedItem? ==>
      k in t && t[k].CompactedItem? && floor[k].compacted.sequence <= t[k].compacted.sequence
  }

  /** Corrected: whatever fails, no compacted row moves to a lower sequence. */
  lemma NeverRegresses(t: Table, f: Faults, record: Record, parseJson: string -> Option<Json>,
                       parseTime: string -> Option<int>, now: int)
    ensures Dominates(ProcessRecord(t, f, record, parseJson, parseTime, now, SkipRecord).table, t)
  {
  }

  /** The compacted row of `c`'s key is present and holds a sequence of at least `c`'s. */
  predicate Covers(t: Table, c: CompactedEvent) {
    CompactKey(c.streamId, c.key) in t && t[CompactKey(c.streamId, c.key)].CompactedItem?
    && c.sequence <= t[CompactKey(c.streamId, c.key)].compacted.sequence
  }

  /** Every row of a compacted key holds a compacted event. */
  ghost predicate CompactRowsTyped(t: Table) {
    forall s: string, x: string :: CompactKey(s, x) in t ==> t[CompactKey(s, x)].CompactedItem?
  }

  /** With the row's lookup and put both working, a processed event is covered: the row
      holds it or something newer. */
  lemma ProcessCovers(t: Table, f: Faults, record: Record, parseJson: string -> Option<Json>,
                      parseTime: string -> Option<int>, now: int, onError: OnReadError)
    requires Decode(record, parseJson, parseTime, now).Compact?
    requires var c := Decode(record, parseJson, parseTime, now).event;
      Get(CompactKey(c.streamId, c.key)) !in f && Put(CompactKey(c.streamId, c.key)) !in f
    requires CompactRowsTyped(t)
    ensures var r := ProcessRecord(t, f, record, parseJson, parseTime, now, onError);
      Covers(r.table, Decode(record, parseJson, parseTime, now).event) && r.error.None? && CompactRowsTyped(r.table)
  {
    var c := Decode(record, parseJson, parseTime, now).event;
    var r := ProcessRecord(t, f, record, parseJson, parseTime, now, onError);
    forall s: string, x: string | CompactKey(s, x) in r.table
      ensures r.table[CompactKey(s, x)].CompactedItem?
    {
      if CompactKey(s, x) != CompactKey(c.streamId, c.key) {
        assert CompactKey(s, x) in t;
      }
    }
  }

  /** The row a compacted event leaves when nothing fails: the event, unless the row
      already holds a sequence at least as high. */
  function Merge(t: Table, c: CompactedEvent): Table {
    var k := CompactKey(c.streamId, c.key);
    if k in t && t[k].CompactedItem? && t[k].compacted.sequence >= c.sequence then t
    else t[k := CompactedItem(c)]
  }

  lemma ProcessIsMerge(t: Table, f: Faults, record: Record, parseJson: string -> Option<Json>,
                       parseTime: string -> Option<int>, now: int, onError: OnReadError)
    requires Decode(record, parseJson, parseTime, now).Compact?
    requires var c := Decode(record, parseJson, parseTime, now).event;
      && Get(CompactKey(c.streamId, c.key)) !in f && Put(CompactKey(c.streamId, c.key)) !in f
      && (CompactKey(c.streamId, c.key) in t ==> t[CompactKey(c.streamId, c.key)].CompactedItem?)
    ensures ProcessRecord(t, f, record, parseJson, parseTime, now, onError).table
      == Merge(t, Decode(record, parseJson, parseTime, now).event)
  {
  }

  /** Merging two events of different keys, or of one key with different sequences,
      gives the same table in either order. */
  lemma MergeCommutes(t: Table, a: CompactedEvent, b: CompactedEvent)
    requires CompactKey(a.streamId, a.key) != CompactKey(b.streamId, b.key) || a.sequence != b.sequence
    ensures Merge(Merge(t, a), b) == Merge(Merge(t, b), a)
  {
    var ka := CompactKey(a.streamId, a.key);
    var kb := CompactKey(b.streamId, b.key);
    if ka != kb {
      assert Unchanged(t, Merge(t, a), kb);
      assert Unchanged(t, Merge(t, b), ka);
    }
  }

  /** Out-of-order delivery is harmless: two events of different keys, or of one key with
      different sequences, leave the same rows in either order. */
  lemma ProcessCommutes(t: Table, f: Faults, a: Record, b: Record, parseJson: string -> Option<Json>,
                        parseTime: string -> Option<int>, now: int, onError: OnReadError)
    requires Decode(a, parseJson, parseTime, now).Compact? && Decode(b, parseJson, parseTime, now).Compact?
    requires var ca := Decode(a, parseJson, parseTime, now).event;
      var cb := Decode(b, parseJson, parseTime, now).event;
      && Get(CompactKey(ca.streamId, ca.key)) !in f && Put(CompactKey(ca.streamId, ca.key)) !in f
      && Get(CompactKey(cb.streamId, cb.key)) !in f && Put(CompactKey(cb.streamId, cb.key)) !in f
      && (CompactKey(ca.streamId, ca.key) != CompactKey(cb.streamId, cb.key) || ca.sequence != cb.sequence)
    requires CompactRowsTyped(t)
    ensures var ab := ProcessRecord(ProcessRecord(t, f, a, parseJson, parseTime, now, onError).table,
                                    f, b, parseJson, parseTime, now, onError).table;
      var ba := ProcessRecord(ProcessRecord(t, f, b, parseJson, parseTime, now, onError).table,
                              f, a, parseJson, parseTime, now, onError).table;
      ab == ba
  {
    var ca := Decode(a, parseJson, parseTime, now).event;
    var cb := Decode(b, parseJson, parseTime, now).event;
    ProcessIsMerge(t, f, a, parseJson, parseTime, now, onError);
    ProcessIsMerge(t, f, b, parseJson, parseTime, now, onError);
    ProcessCovers(t, f, a, parseJson, parseTime, now, onError);
    ProcessCovers(t, f, b, parseJson, parseTime, now, onError);
    ProcessIsMerge(Merge(t, ca), f, b, parseJson, parseTime, now, onError);
    ProcessIsMerge(Merge(t, cb), f, a, parseJson, parseTime, now, onError);
    MergeCommutes(t, ca, cb);
  }

  // ---------------------------------------------------------------------------
  // The batch
  // ---------------------------------------------------------------------------

  /** The handler's loop: every record is processed in order and a failing record does
      not stop the batch. */
  function ProcessAll(t: Table, f: Faults, records: seq<Record>, parseJson: string -> Option<Json>,
                      parseTime: string -> Option<int>, now: int, onError: OnReadError): (r: Table)
    ensures forall k: Key :: !StartsWith(k.sk, "KEY#") ==> Unchanged(t, r, k)
    decreases |records|
  {
    if |records| == 0 then t
    else
      var first := ProcessRecord(t, f, records[0], parseJson, parseTime, now, onError).table;
      var d := Decode(records[0], parseJson, parseTime, now);
      assert d.Compact? ==> StartsWith(KeySk(d.event.key), "KEY#");
      ProcessAll(first, f, records[1..], parseJson, parseTime, now, onError)
  }

  /** The compactor's handler, as written: every record is processed and a failed lookup
      of a compacted row does not stop its write. It always succeeds. Only compacted rows
      change; while every compacted row's lookup works no row regresses, and when besides
      every compacted row holds a compacted event the handler agrees with the corrected
      one. */
  function Handler(t: Table, f: Faults, records: seq<Record>, parseJson: string -> Option<Json>,
                   parseTime: string -> Option<int>, now: int): (r: Table)
    ensures forall k: Key :: !StartsWith(k.sk, "KEY#") ==> Unchanged(t, r, k)
    ensures (forall s: string, x: string :: Get(CompactKey(s, x)) !in f) ==> Dominates(r, t)
    ensures (forall s: string, x: string :: Get(CompactKey(s, x)) !in f) && CompactRowsTyped(t) ==>
      r == CorrectedHandler(t, f, records, parseJson, parseTime, now)
  {
    BatchReadableNeverRegresses(t, f, records, parseJson, parseTime, now, WriteAnyway);
    BatchModesAgree(t, f, records, parseJson, parseTime, now);
    ProcessAll(t, f, records, parseJson, parseTime, now, WriteAnyway)
  }

  /** Corrected: a record whose row lookup fails is not written, so whatever fails no
      compacted row moves to a lower sequence. */
  function CorrectedHandler(t: Table, f: Faults, records: seq<Record>, parseJson: string -> Option<Json>,
                            parseTime: string -> Option<int>, now: int): (r: Table)
    ensures Dominates(r, t)
    ensures forall k: Key :: !StartsWith(k.sk, "KEY#") ==> Unchanged(t, r, k)
  {
    BatchNeverRegresses(t, f, records, parseJson, parseTime, now);
    ProcessAll(t, f, records, parseJson, parseTime, now, SkipRecord)
  }

  /** As written, one record is enough for the handler to regress a row: a redelivered
      record below the row's sequence, whose lookup fails, overwrites it. */
  lemma HandlerRegresses(t: Table, f: Faults, record: Record, parseJson: string -> Option<Json>,
                         parseTime: string -> Option<int>, now: int, newer: CompactedEvent)
    requires Decode(record, parseJson, parseTime, now).Compact?
    requires var c := Decode(record, parseJson, parseTime, now).event;
      && CompactKey(c.streamId, c.key) in t && t[CompactKey(c.streamId, c.key)] == CompactedItem(newer)
      && c.sequence < newer.sequence
      && Get(CompactKey(c.streamId, c.key)) in f && Put(CompactKey(c.streamId, c.key)) !in f
    ensures var c := Decode(record, parseJson, parseTime, now).event;
      var r := Handler(t, f, [record], parseJson, parseTime, now);
      && CompactKey(c.streamId, c.key) in r && r[CompactKey(c.streamId, c.key)] == CompactedItem(c)
      && !Dominates(r, t)
  {
    var c := Decode(record, parseJson, parseTime, now).event;
    var k := CompactKey(c.streamId, c.key);
    var one := ProcessRecord(t, f, record, parseJson, parseTime, now, WriteAnyway).table;
    ReadFailureRegresses(t, f, record, parseJson, parseTime, now, newer);
    ProcessAllCons(t, f, [record], parseJson, parseTime, now, WriteAnyway);
    assert [record][1..] == [];
    assert Handler(t, f, [record], parseJson, parseTime, now) == one;
  }

  /** While no compacted row's lookup fails and every compacted row holds a compacted
      event, the two ways of handling a failed lookup process a record alike. */
  lemma ModesAgree(t: Table, f: Faults, record: Record, parseJson: string -> Option<Json>,
                   parseTime: string -> Option<int>, now: int)
    ensures (forall s: string, x: string :: Get(CompactKey(s, x)) !in f) && CompactRowsTyped(t) ==>
      ProcessRecord(t, f, record, parseJson, parseTime, now, WriteAnyway)
        == ProcessRecord(t, f, record, parseJson, parseTime, now, SkipRecord)
  {
    var d := Decode(record, parseJson, parseTime, now);
    if d.Compact? && (forall s: string, x: string :: Get(CompactKey(s, x)) !in f) && CompactRowsTyped(t) {
      var k := CompactKey(d.event.streamId, d.event.key);
      assert Get(k) !in f;
      EventModesAgree(t, f, d.event);
      assert ProcessRecord(t, f, record, parseJson, parseTime, now, WriteAnyway) == ProcessEvent(t, f, d.event, WriteAnyway);
      assert ProcessRecord(t, f, record, parseJson, parseTime, now, SkipRecord) == ProcessEvent(t, f, d.event, SkipRecord);
    }
  }

  /** An event whose row's lookup succeeds is processed alike either way. */
  lemma EventModesAgree(t: Table, f: Faults, c: CompactedEvent)
    requires Get(CompactKey(c.streamId, c.key)) !in f
    requires CompactKey(c.streamId, c.key) in t ==> t[CompactKey(c.streamId, c.key)].CompactedItem?
    ensures ProcessEvent(t, f, c, WriteAnyway) == ProcessEvent(t, f, c, SkipRecord)
  {
    assert GetCompacted(t, f, c.streamId, c.key).Ok?;
  }

  /** While no compacted row's lookup fails, processing either way moves no compacted row
      to a lower sequence. */
  lemma ReadableNeverRegresses(t: Table, f: Faults, record: Record, parseJson: string -> Option<Json>,
                               parseTime: string -> Option<int>, now: int, onError: OnReadError)
    requires forall s: string, x: string :: Get(CompactKey(s, x)) !in f
    ensures Dominates(ProcessRecord(t, f, record, parseJson, parseTime, now, onError).table, t)
  {
    var d := Decode(record, parseJson, parseTime, now);
    if d.Compact? {
      assert Get(CompactKey(d.event.streamId, d.event.key)) !in f;
    }
  }

  /** The same over a whole batch. */
  lemma {:induction false} BatchReadableNeverRegresses(t: Table, f: Faults, records: seq<Record>,
                                                       parseJson: string -> Option<Json>,
                                                       parseTime: string -> Option<int>, now: int,
                                                       onError: OnReadError)
    ensures (forall s: string, x: string :: Get(CompactKey(s, x)) !in f) ==>
      Dominates(ProcessAll(t, f, records, parseJson, parseTime, now, onError), t)
    decreases |records|
  {
    if |records| > 0 && forall s: string, x: string :: Get(CompactKey(s, x)) !in f {
      var first := ProcessRecord(t, f, records[0], parseJson, parseTime, now, onError).table;
      ReadableNeverRegresses(t, f, records[0], parseJson, parseTime, now, onError);
      BatchReadableNeverRegresses(first, f, records[1..], parseJson, parseTime, now, onError);
      ProcessAllCons(t, f, records, parseJson, parseTime, now, onError);
      DominatesTransitive(ProcessAll(first, f, records[1..], parseJson, parseTime, now, onError), first, t);
    }
  }

  /** The same over a whole batch. */
  lemma {:induction false} BatchModesAgree(t: Table, f: Faults, records: seq<Record>,
                                           parseJson: string -> Option<Json>,
                                           parseTime: string -> Option<int>, now: int)
    ensures (forall s: string, x: string :: Get(CompactKey(s, x)) !in f) && CompactRowsTyped(t) ==>
      ProcessAll(t, f, records, parseJson, parseTime, now, WriteAnyway)
        == ProcessAll(t, f, records, parseJson, parseTime, now, SkipRecord)
    decreases |records|
  {
    if |records| > 0 && CompactRowsTyped(t) {
      var first := ProcessRecord(t, f, records[0], parseJson, parseTime, now, SkipRecord).table;
      ModesAgree(t, f, records[0], parseJson, parseTime, now);
      ProcessKeepsTyped(t, f, records[0], parseJson, parseTime, now, SkipRecord);
      BatchModesAgree(first, f, records[1..], parseJson, parseTime, now);
      ProcessAllCons(t, f, records, parseJson, parseTime, now, WriteAnyway);
      ProcessAllCons(t, f, records, parseJson, parseTime, now, SkipRecord);
    }
  }

  lemma DominatesTransitive(a: Table, b: Table, c: Table)
    requires Dominates(a, b) && Dominates(b, c)
    ensures Dominates(a, c)
  {
  }

  /** With the corrected processing, no row regresses over a whole batch. */
  lemma {:induction false} BatchNeverRegresses(t: Table, f: Faults, records: seq<Record>,
                                               parseJson: string -> Option<Json>,
                                               parseTime: string -> Option<int>, now: int)
    ensures Dominates(ProcessAll(t, f, records, parseJson, parseTime, now, SkipRecord), t)
    decreases |records|
  {
    if |records| > 0 {
      var first := ProcessRecord(t, f, records[0], parseJson, parseTime, now, SkipRecord).table;
      NeverRegresses(t, f, records[0], parseJson, parseTime, now);
      BatchNeverRegresses(first, f, records[1..], parseJson, parseTime, now);
      DominatesTransitive(ProcessAll(first, f, records[1..], parseJson, parseTime, now, SkipRecord), first, t);
    }
  }

  /** With the compacted rows' lookups and puts working, after a batch every event in it
      is covered: its key's row holds it or a newer event, whatever the delivery order and
      whichever way a failed lookup is handled. */
  lemma BatchCovers(t: Table, f: Faults, records: seq<Record>, parseJson: string -> Option<Json>,
                    parseTime: string -> Option<int>, now: int, onError: OnReadError, i: nat)
    requires forall s: string, x: string :: Get(CompactKey(s, x)) !in f && Put(CompactKey(s, x)) !in f
    requires CompactRowsTyped(t)
    requires i < |records| && Decode(records[i], parseJson, parseTime, now).Compact?
    ensures Covers(ProcessAll(t, f, records, parseJson, parseTime, now, onError),
                   Decode(records[i], parseJson, parseTime, now).event)
  {
    BatchModesAgree(t, f, records, parseJson, parseTime, now);
    CorrectedBatchCovers(t, f, records, parseJson, parseTime, now, i);
  }

  /** The same for the corrected processing, by induction on the batch. */
  lemma {:induction false} CorrectedBatchCovers(t: Table, f: Faults, records: seq<Record>,
                                                parseJson: string -> Option<Json>,
                                                parseTime: string -> Option<int>, now: int, i: nat)
    requires forall s: string, x: string :: Get(CompactKey(s, x)) !in f && Put(CompactKey(s, x)) !in f
    requires CompactRowsTyped(t)
    requires i < |records| && Decode(records[i], parseJson, parseTime, now).Compact?
    ensures Covers(ProcessAll(t, f, records, parseJson, parseTime, now, SkipRecord),
                   Decode(records[i], parseJson, parseTime, now).event)
    decreases |records|
  {
    if i == 0 {
      BatchCoversFirst(t, f, records, parseJson, parseTime, now);
    } else {
      var first := ProcessRecord(t, f, records[0], parseJson, parseTime, now, SkipRecord).table;
      var rest := records[1..];
      ProcessAllCons(t, f, records, parseJson, parseTime, now, SkipRecord);
      ProcessKeepsTyped(t, f, records[0], parseJson, parseTime, now, SkipRecord);
      assert rest[i - 1] == records[i];
      CorrectedBatchCovers(first, f, rest, parseJson, parseTime, now, i - 1);
    }
  }

  /** `item` is the compacted form of a record of the batch whose key is `k`. */
  ghost predicate FromBatch(records: seq<Record>, parseJson: string -> Option<Json>,
                            parseTime: string -> Option<int>, now: int, k: Key, item: Item) {
    exists i :: 0 <= i < |records| && Decode(records[i], parseJson, parseTime, now).Compact?
      && k == CompactKey(Decode(records[i], parseJson, parseTime, now).event.streamId,
                         Decode(records[i], parseJson, parseTime, now).event.key)
      && item == CompactedItem(Decode(records[i], parseJson, parseTime, now).event)
  }

  /** Whatever fails, a batch writes nothing of its own: every row after it is the row
      before it or the compacted form of one of its records, under that record's key. */
  lemma {:induction false} BatchRowOrigin(t: Table, f: Faults, records: seq<Record>,
                                          parseJson: string -> Option<Json>,
                                          parseTime: string -> Option<int>, now: int,
                                          onError: OnReadError, k: Key)
    ensures var r := ProcessAll(t, f, records, parseJson, parseTime, now, onError);
      k in r ==> (k in t && r[k] == t[k]) || FromBatch(records, parseJson, parseTime, now, k, r[k])
    decreases |records|
  {
    if |records| > 0 {
      var first := ProcessRecord(t, f, records[0], parseJson, parseTime, now, onError).table;
      var rest := records[1..];
      var r := ProcessAll(first, f, rest, parseJson, parseTime, now, onError);
      ProcessAllCons(t, f, records, parseJson, parseTime, now, onError);
      BatchRowOrigin(first, f, rest, parseJson, parseTime, now, onError, k);
      if k in r {
        if k in first && r[k] == first[k] {
          ProcessRowOrigin(t, f, records[0], parseJson, parseTime, now, onError, k);
          if !(k in t && first[k] == t[k]) {
            assert FromBatch(records, parseJson, parseTime, now, k, r[k]);
          }
        } else {
          FromBatchTail(records, parseJson, parseTime, now, k, r[k]);
        }
      }
    }
  }

  lemma FromBatchTail(records: seq<Record>, parseJson: string -> Option<Json>,
                      parseTime: string -> Option<int>, now: int, k: Key, item: Item)
    requires |records| > 0 && FromBatch(records[1..], parseJson, parseTime, now, k, item)
    ensures FromBatch(records, parseJson, parseTime, now, k, item)
  {
    var rest := records[1..];
    var j :| 0 <= j < |rest| && Decode(rest[j], parseJson, parseTime, now).Compact?
      && k == CompactKey(Decode(rest[j], parseJson, parseTime, now).event.streamId,
                         Decode(rest[j], parseJson, parseTime, now).event.key)
      && item == CompactedItem(Decode(rest[j], parseJson, parseTime, now).event);
    assert rest[j] == records[j + 1];
  }

  /** A record writes nothing but its own compacted form, under its own key. */
  lemma ProcessRowOrigin(t: Table, f: Faults, record: Record, parseJson: string -> Option<Json>,
                         parseTime: string -> Option<int>, now: int, onError: OnReadError, k: Key)
    ensures var r := ProcessRecord(t, f, record, parseJson, parseTime, now, onError).table;
      k in r ==>
        || (k in t && r[k] == t[k])
        || (&& Decode(record, parseJson, parseTime, now).Compact?
            && k == CompactKey(Decode(record, parseJson, parseTime, now).event.streamId,
                               Decode(record, parseJson, parseTime, now).event.key)
            && r[k] == CompactedItem(Decode(record, parseJson, parseTime, now).event))
  {
  }

  /** With the compacted rows' lookups and puts working, a batch leaves in each compacted
      row the latest of the events it held and received: the row is the one before the
      batch or a record of it, and its sequence is at least every one of them. */
  lemma BatchHoldsLatest(t: Table, f: Faults, records: seq<Record>, parseJson: string -> Option<Json>,
                         parseTime: string -> Option<int>, now: int, onError: OnReadError, s: string, x: string)
    requires forall s: string, x: string :: Get(CompactKey(s, x)) !in f && Put(CompactKey(s, x)) !in f
    requires CompactRowsTyped(t)
    ensures var r := ProcessAll(t, f, records, parseJson, parseTime, now, onError);
      var k := CompactKey(s, x);
      && (k in r ==> (k in t && r[k] == t[k]) || FromBatch(records, parseJson, parseTime, now, k, r[k]))
      && (k in t ==> k in r && r[k].CompactedItem? && t[k].compacted.sequence <= r[k].compacted.sequence)
      && (forall i :: (&& 0 <= i < |records| && Decode(records[i], parseJson, parseTime, now).Compact?
                       && k == CompactKey(Decode(records[i], parseJson, parseTime, now).event.streamId,
                                          Decode(records[i], parseJson, parseTime, now).event.key)) ==>
            (k in r && r[k].CompactedItem?
             && Decode(records[i], parseJson, parseTime, now).event.sequence <= r[k].compacted.sequence))
  {
    var k := CompactKey(s, x);
    BatchRowOrigin(t, f, records, parseJson, parseTime, now, onError, k);
    BatchModesAgree(t, f, records, parseJson, parseTime, now);
    BatchNeverRegresses(t, f, records, parseJson, parseTime, now);
    forall i | 0 <= i < |records| && Decode(records[i], parseJson, parseTime, now).Compact?
      ensures Covers(ProcessAll(t, f, records, parseJson, parseTime, now, onError),
                     Decode(records[i], parseJson, parseTime, now).event)
    {
      BatchCovers(t, f, records, parseJson, parseTime, now, onError, i);
    }
  }

  /** The first record of a batch is covered at the end of it. */
  lemma BatchCoversFirst(t: Table, f: Faults, records: seq<Record>, parseJson: string -> Option<Json>,
                         parseTime: string -> Option<int>, now: int)
    requires forall s: string, x: string :: Get(CompactKey(s, x)) !in f && Put(CompactKey(s, x)) !in f
    requires CompactRowsTyped(t)
    requires 0 < |records| && Decode(records[0], parseJson, parseTime, now).Compact?
    ensures Covers(ProcessAll(t, f, records, parseJson, parseTime, now, SkipRecord),
                   Decode(records[0], parseJson, parseTime, now).event)
  {
    var first := ProcessRecord(t, f, records[0], parseJson, parseTime, now, SkipRecord).table;
    var final := ProcessAll(first, f, records[1..], parseJson, parseTime, now, SkipRecord);
    ProcessAllCons(t, f, records, parseJson, parseTime, now, SkipRecord);
    ProcessCovers(t, f, records[0], parseJson, parseTime, now, SkipRecord);
    BatchNeverRegresses(first, f, records[1..], parseJson, parseTime, now);
    CoversDominated(first, final, Decode(records[0], parseJson, parseTime, now).event);
  }

  /** Processing keeps every compacted row holding a compacted event, whatever fails. */
  lemma ProcessKeepsTyped(t: Table, f: Faults, record: Record, parseJson: string -> Option<Json>,
                          parseTime: string -> Option<int>, now: int, onError: OnReadError)
    requires CompactRowsTyped(t)
    ensures CompactRowsTyped(ProcessRecord(t, f, record, parseJson, parseTime, now, onError).table)
  {
    var r := ProcessRecord(t, f, record, parseJson, parseTime, now, onError).table;
    forall s: string, x: string | CompactKey(s, x) in r
      ensures r[CompactKey(s, x)].CompactedItem?
    {
      if r != t {
        var c := Decode(record, parseJson, parseTime, now).event;
        if CompactKey(s, x) != CompactKey(c.streamId, c.key) {
          assert CompactKey(s, x) in t;
        }
      }
    }
  }

  lemma ProcessAllCons(t: Table, f: Faults, records: seq<Record>, parseJson: string -> Option<Json>,
                       parseTime: string -> Option<int>, now: int, onError: OnReadError)
    requires |records| > 0
    ensures ProcessAll(t, f, records, parseJson, parseTime, now, onError)
      == ProcessAll(ProcessRecord(t, f, records[0], parseJson, parseTime, now, onError).table,
                    f, records[1..], parseJson, parseTime, now, onError)
  {
  }

  lemma CoversDominated(t: Table, u: Table, c: CompactedEvent)
    requires Covers(t, c) && Dominates(u, t)
    ensures Covers(u, c)
  {
    assert CompactKey(c.streamId, c.key) in t;
  }
}
