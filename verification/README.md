# EventLedger core in Dafny

This is a model of EventLedger, a partitioned and append-only event log. It runs on four
AWS Lambdas over a single DynamoDB table:

- **admin** creates, lists, fetches and deletes streams, and creates subscriptions.
- **publish** appends events to a stream. Each event goes to the partition chosen by
  hashing its key. Each partition's sequence number comes from an atomic counter.
- **poll** reads a subscription's events from every partition. It returns them in
  timestamp order together with an opaque cursor, and `commit` stores the cursor's offsets.
- **compactor** consumes the table's change stream. It keeps the latest event for every
  (stream, key) pair.

The shared crate's data access layer (`dynamo.rs`) is modelled call by call. So are its
error type (`errors.rs`), its partitioner (`partitioner.rs`) and its wire types
(`models.rs`).

**Table and keys.** The table is a `map<Key, Item>` whose keys are (PK, SK) pairs. Module
`Keys` writes the key formats:

| item | PK | SK |
|---|---|---|
| stream | `STREAM#id` | `META` |
| subscription | `STREAM#id` | `SUB#sub` |
| partition counter | `STREAM#id#Pn` | `COUNTER` |
| event | `STREAM#id#Pn` | `SEQ#` and the sequence, zero-padded to 20 digits |
| offset | `STREAM#id#SUB#sub` | `OFFSET#Pn` |
| compacted event | `STREAM#id#COMPACT` | `KEY#k` |

Range queries compare sort keys lexicographically, as `Strings.Below` does.

**Faults.** Any single store call can fail. A map `Faults` from calls (`Get`, `Put`,
`Update`, `Delete`, `Query`, `Scan`, each on a key or a PK) to an error message stands for
the AWS SDK's failures. A store operation returns `Step(table, outcome)`. The outcome is
`Done(value)`, `Failed(error)`, or `Panicked(message)`; the last stands for a Rust panic
such as a division by zero.

**HTTP.** A handler maps a table and a request to `Handled(table, reply)`. The reply is
either an HTTP response (`Respond(status, body)`) or a failure of the handler itself
(`Crash(message)`, which is what an `Err` escaping the Lambda handler or a panic becomes).

**Parameters.** These are not modelled but passed in:

- the serde_json readers of the request bodies;
- the clock (`now`, and a timestamp reader for the compactor);
- SHA-256.

UTF-8, unpadded base64url, the decimal and zero-padded number formats, and the cursor's
JSON text are modelled concretely. Their round trips are proved.

## Model

| member | source | states |
|---|---|---|
| Errors.Status | lambdas/shared/src/errors.rs:85-101 | not-found variants are 404, the already-exists variants 409, the invalid-input variants, validation and JSON serialisation 400, and store, DynamoDB conversion and internal failures 500; each status holds exactly for its group |
| Errors.Display | lambdas/shared/src/errors.rs:10-62 | every message is the variant's fixed prefix followed by ": " and the carried detail |
| Errors.CodeIdentifiesVariant | lambdas/shared/src/errors.rs:66-82 | two errors have the same code exactly when they are the same variant, except that the two serialisation variants share "serialization_error" |
| Errors.SharedCodeDifferentStatus | lambdas/shared/src/errors.rs:76-99 | the two serialisation variants share a code, yet a JSON error is 400 and a DynamoDB conversion error 500 |
| Errors.CodeDeterminesStatus | lambdas/shared/src/errors.rs:66-101 | errors with the same code have the same HTTP status, except the shared "serialization_error" code, which is 400 for a JSON error and 500 for a store conversion error |
| Errors.DisplayPrefixFixed | lambdas/shared/src/errors.rs:10-62 | the text before the detail depends on the variant alone: changing the detail changes only the tail of the message |
| Errors.DisplayInjective | lambdas/shared/src/errors.rs:10-62 | two errors of the same variant with the same message are equal, so the detail can be recovered from the text |
| Errors.DisplayExample | lambdas/shared/src/errors.rs:108-126 | StreamNotFound("orders") displays as "Stream not found: orders", with code stream_not_found and status 404; a validation error is validation_error and 400 |
| Http.ErrorReply | lambdas/admin/src/main.rs:124-132 | an error becomes a response whose status is the error's status, 404 exactly for not-found errors and 409 exactly for conflicts, with the error's code and message and no details |
| Models.NewStream | lambdas/shared/src/models.rs:26-33 | a new stream keeps the requested id, partition count and retention and is stamped with the call's time |
| Models.DecodeCreateStreamRequest | lambdas/shared/src/models.rs:37-55 | missing `partition_count` and `retention_hours` default to 3 and 168; present ones are kept |
| Models.DecodeCreateSubscriptionRequest | lambdas/shared/src/models.rs:134-141 | a missing `start_from` means Latest |
| Models.ParseStartFrom | lambdas/shared/src/models.rs:144-151 | a name reads as a start position exactly when it is that position's snake_case name |
| Models.DecodePollRequest | lambdas/shared/src/models.rs:167-176 | a missing `limit` means 100 |
| Models.NewErrorResponse | lambdas/shared/src/models.rs:239-245 | a new error body carries the code and message and no details |
| Models.WithDetails | lambdas/shared/src/models.rs:247-250 | adding details keeps the code and message |
| Models.ErrorResponseJson | lambdas/shared/src/models.rs:230-236 | the JSON has a `details` member exactly when details are present |
| Partitioner.New | lambdas/shared/src/partitioner.rs:15-18 | a partitioner exists exactly for a positive count and keeps it; zero is the assertion's panic |
| Partitioner.Partition | lambdas/shared/src/partitioner.rs:24-33 | the partition is below the count and is the big-endian u32 of the first four bytes of SHA-256 of the key's UTF-8, modulo the count |
| Partitioner.BeBytesRoundTrip | lambdas/shared/src/partitioner.rs:30 | reading four bytes big-endian inverts writing a u32 big-endian |
| Partitioner.BeBytesRoundTripBytes | lambdas/shared/src/partitioner.rs:30 | writing a read u32 back gives the same four bytes |
| Partitioner.SameDigestHeadSamePartition | lambdas/shared/src/partitioner.rs:46-69 | keys whose digests agree on the first four bytes go to the same partition, so a key always goes to the same partition |
| Partitioner.EveryPartitionReachable | lambdas/shared/src/partitioner.rs:24-33 | every partition below the count is the image of some digest |
| Partitioner.NewPartitionCount | lambdas/shared/src/partitioner.rs:36-38 | `partition_count` returns the count the partitioner was built with |
| Numbers.AsI32 | lambdas/shared/src/dynamo.rs:286 | `as i32` is two's complement: the result is congruent modulo 2^32, and non-negative exactly for values up to i32::MAX |
| Numbers.ParseDecimal | lambdas/poll/src/main.rs:62-66 | parsing the decimal text of a value gives the value back |
| Numbers.PaddedOrder | lambdas/shared/src/dynamo.rs:217 | zero-padded numbers of one width compare lexicographically as they compare numerically |
| Keys.SeqSkOrder | lambdas/shared/src/dynamo.rs:217 | one event sort key sorts below another exactly when its sequence is smaller |
| Keys.SeqSkInjective | lambdas/shared/src/dynamo.rs:217 | distinct sequences have distinct sort keys |
| Keys.CounterBelowEvents | lambdas/shared/src/dynamo.rs:89-90 | the counter's sort key sorts below every event sort key of its partition |
| Keys.OnlyEventsStartWithSeq | lambdas/shared/src/dynamo.rs:5-12 | among the sort keys the layout uses, only event keys begin with "SEQ#" |
| Keys.PartitionPkInjective | lambdas/shared/src/dynamo.rs:89 | different (stream, partition) pairs give different partition PKs, because the decimal partition after the last "#P" holds no "P" |
| Keys.EventKeyInjective | lambdas/shared/src/dynamo.rs:212-217 | the event key determines the stream, the partition and the sequence |
| Keys.OffsetKeyCollision | lambdas/shared/src/dynamo.rs:388-394 | stream "a" with subscription "b#SUB#c" and stream "a#SUB#b" with subscription "c" share offset rows |
| Keys.OffsetSkInjective | lambdas/shared/src/dynamo.rs:394 | different partitions have different offset sort keys |
| Keys.CompactKeyInjective | lambdas/shared/src/dynamo.rs:483-489 | different (stream, key) pairs have different compacted rows |
| Keys.SubscriptionPkNotStreamPk | lambdas/shared/src/dynamo.rs:388-390 | a subscription's offset PK never equals the PK of its stream's own items |
| Store.ConditionalPutError | lambdas/shared/src/dynamo.rs:70-76 | a failed conditional put whose message contains "ConditionalCheckFailed" is the conflict error; any other failure is a database error with the message |
| Dynamo.InitCounters | lambdas/shared/src/dynamo.rs:87-102 | zero counters are written for partitions 0, 1, … up to the first failing put; the call succeeds exactly when none fails |
| Dynamo.CreateStream | lambdas/shared/src/dynamo.rs:51-84 | an existing stream is a conflict and leaves the table alone; on success the table is the old one plus the stream and a zero counter per partition; success exactly when the stream is absent and no call fails |
| Dynamo.GetStream | lambdas/shared/src/dynamo.rs:105-120 | the stream stored under its META key, or StreamNotFound when there is none |
| Dynamo.ListStreams | lambdas/shared/src/dynamo.rs:123-144 | a stream is listed exactly when some `STREAM#`/`META` item holds it |
| Dynamo.DeleteCounters | lambdas/shared/src/dynamo.rs:162-172 | counters are removed in partition order up to the first failing delete; nothing else changes |
| Dynamo.DeleteStream | lambdas/shared/src/dynamo.rs:147-177 | only the META item and the counters can go, every other item stays, and on success both are gone |
| Dynamo.IncrementSequence | lambdas/shared/src/dynamo.rs:241-263 | succeeds exactly when the counter exists and is below u64::MAX, returning and storing the old value plus one |
| Dynamo.PublishEach | lambdas/shared/src/dynamo.rs:190-237 | events are handled in order; a failure stops the loop with the items written so far kept |
| Dynamo.PublishEvents | lambdas/shared/src/dynamo.rs:184-238 | an unreadable stream fails with the table unchanged; a stream with zero partitions panics, and only then |
| Dynamo.ReadEvents | lambdas/shared/src/dynamo.rs:266-299 | the query succeeds exactly when no call fails and the i32 limit is positive, and returns at most `limit` events |
| Dynamo.GetLatestOffset | lambdas/shared/src/dynamo.rs:356-377 | the counter's value, or 0 when the partition has no counter |
| Dynamo.InitialOffset | lambdas/shared/src/dynamo.rs:337-349 | Earliest and Compacted start at 0; Latest starts at the partition's counter, or 0 when it cannot be read |
| Dynamo.SetOffset | lambdas/shared/src/dynamo.rs:380-411 | puts the offset row for the partition, overwriting it |
| Dynamo.InitOffsets | lambdas/shared/src/dynamo.rs:346-350 | offsets are written partition by partition up to the first failing put |
| Dynamo.InitOffsetsFrame | lambdas/shared/src/dynamo.rs:346-350 | initialising offsets writes only the subscription's offset rows |
| Dynamo.InitOffsetsStores | lambdas/shared/src/dynamo.rs:346-350 | after success every partition's row holds its initial offset |
| Dynamo.CreateSubscription | lambdas/shared/src/dynamo.rs:306-353 | an unreadable stream fails and changes nothing; an existing subscription is a conflict; success exactly when no call fails, and then the subscription item and every partition's initial offset are stored; nothing outside them changes |
| Dynamo.GetOffset | lambdas/shared/src/dynamo.rs:414-443 | the stored offset, or SubscriptionNotFound when there is no row |
| Dynamo.CommitOffsets | lambdas/shared/src/dynamo.rs:446-456 | each entry is put in turn, only under the subscription's PK; a failure is a database error |
| Dynamo.GetSubscription | lambdas/shared/src/dynamo.rs:459-474 | the stored subscription, or SubscriptionNotFound |
| Dynamo.PutCompacted | lambdas/shared/src/dynamo.rs:481-501 | an unconditional put of the row for the event's stream and key |
| Dynamo.GetCompacted | lambdas/shared/src/dynamo.rs:504-519 | the row for the stream and key, or nothing |
| Dynamo.ListCompacted | lambdas/shared/src/dynamo.rs:522-545 | the rows under the stream's COMPACT PK whose sort key starts with "KEY#" |
| Lifecycle.CreateThenGetStream | lambdas/shared/src/dynamo.rs:51-120 | a stream that was created can be read back unchanged |
| Lifecycle.CreateStreamTwice | lambdas/shared/src/dynamo.rs:67-76 | creating the same stream twice fails the second time with StreamAlreadyExists and no change |
| Lifecycle.DeleteThenGetStream | lambdas/shared/src/dynamo.rs:147-177 | after a successful delete the stream is not found, while its events are still stored |
| Lifecycle.CreateStreamWellFormed | lambdas/shared/src/dynamo.rs:51-102 | creating a stream keeps every item under the key its contents name |
| Lifecycle.DeleteStreamWellFormed | lambdas/shared/src/dynamo.rs:147-177 | deleting a stream keeps the table well formed |
| Lifecycle.CreateThenGetSubscription | lambdas/shared/src/dynamo.rs:306-474 | a created subscription can be read back |
| Lifecycle.SubscriptionStartsAt | lambdas/shared/src/dynamo.rs:337-443 | right after creation, every partition's offset reads back as its initial offset |
| Lifecycle.LastOffset | lambdas/shared/src/dynamo.rs:446-456 | the value the last entry for a partition carries, if any |
| Lifecycle.CommitThenGet | lambdas/shared/src/dynamo.rs:446-456 | after a commit each listed partition reads the last value listed for it, and unlisted partitions keep theirs |
| Lifecycle.CommitRewinds | lambdas/shared/src/dynamo.rs:380-411 | committing an offset below the stored one is accepted and moves the offset back |
| Lifecycle.CreateSubscriptionWellFormed | lambdas/shared/src/dynamo.rs:306-353 | creating a subscription keeps the table well formed |
| Lifecycle.CommitOffsetsWellFormed | lambdas/shared/src/dynamo.rs:446-456 | committing keeps the table well formed |
| Lifecycle.PutThenGetCompacted | lambdas/shared/src/dynamo.rs:481-519 | a compacted row that was put is read back |
| Lifecycle.PutCompactedWellFormed | lambdas/shared/src/dynamo.rs:481-501 | putting a compacted row keeps the table well formed |
| Lifecycle.ListCompactedMembers | lambdas/shared/src/dynamo.rs:522-545 | in a well-formed table, the listing holds exactly the stream's compacted rows |
| Sequencing.PublishEachFrame | lambdas/shared/src/dynamo.rs:190-237 | the loop changes only the stream's counters and event items |
| Sequencing.PublishEachCounters | lambdas/shared/src/dynamo.rs:241-263 | on success each partition's counter has grown by the number of events sent to it |
| Sequencing.PublishEachStores | lambdas/shared/src/dynamo.rs:205-230 | each returned reference names an event item that holds the published event |
| Sequencing.PublishEachWellFormed | lambdas/shared/src/dynamo.rs:190-237 | the loop keeps the table well formed |
| Sequencing.PublishEachDistinct | lambdas/shared/src/dynamo.rs:190-237 | no two references share a partition and a sequence |
| Sequencing.PublishEventsRunsEach | lambdas/shared/src/dynamo.rs:184-238 | with a readable stream of positive partition count, publishing is the loop over the events |
| Sequencing.PublishEventsSequences | lambdas/shared/src/dynamo.rs:184-263 | there is one reference per input in input order, each in its key's partition, all with the call's timestamp; a sequence is the counter plus the earlier events for that partition, plus one, so sequences increase within a partition |
| Sequencing.PublishEventsStores | lambdas/shared/src/dynamo.rs:205-230 | after a successful publish every reference's event item holds its event |
| Sequencing.PublishEventsFrame | lambdas/shared/src/dynamo.rs:184-238 | publishing keeps the table well formed and changes only this stream's counters and new event items; older events and other streams stay |
| Sequencing.FreshStreamSequences | lambdas/shared/src/dynamo.rs:184-263 | n events with one key published to a new stream get the sequences 1 to n |
| Reading.ReadEventsSound | lambdas/shared/src/dynamo.rs:266-299 | every event read is a stored event of the partition above the start, unchanged, in strictly increasing order |
| Reading.ReadEventsNoGaps | lambdas/shared/src/dynamo.rs:273-298 | no stored event falls between the start and the last event read without being read |
| Reading.ReadEventsComplete | lambdas/shared/src/dynamo.rs:266-299 | when the partition's sort keys above the start fit within the limit, every stored event above the start is read |
| Reading.ReadFromCounterIsEmpty | lambdas/shared/src/dynamo.rs:266-299 | reading from a partition's current counter value finds nothing, in a table where every stored sequence is at most the counter |
| Reading.EventsAtAscending | lambdas/shared/src/dynamo.rs:273-284 | the partition's event keys, in sort-key order, have strictly increasing sequences |
| Cursor.ParseCursorJsonInverts | lambdas/shared/src/models.rs:190-200 | reading the compact JSON of a cursor state gives the state back |
| Cursor.DecodeCursor | lambdas/poll/src/main.rs:147-153 | bad base64, bad UTF-8 and bad JSON give InvalidCursor naming that layer; success is the JSON reader's result |
| Cursor.CursorRoundTrip | lambdas/poll/src/main.rs:117-153 | decoding a token that poll wrote gives back its cursor state, for any JSON reader that reads back what serde writes |
| Cursor.StrictCursorRoundTrip | lambdas/poll/src/main.rs:117-153 | with the strict reader the round trip holds for every cursor state |
| Cursor.OneCharacterTokenRejected | lambdas/poll/src/main.rs:147-149 | a one-character token is rejected as invalid base64 |
| Base64Url.DecodeEncode | lambdas/poll/src/main.rs:119 | decoding unpadded base64url inverts encoding |
| Base64Url.EncodeDecode | lambdas/poll/src/main.rs:147-149 | a token that decodes is canonical: encoding the bytes gives the token back |
| Base64Url.Encode | lambdas/poll/src/main.rs:119 | n bytes become ⌈4n/3⌉ symbols of the URL-safe alphabet |
| Utf8.DecodeEncode | lambdas/poll/src/main.rs:119 | decoding the UTF-8 of a string gives the string back |
| Utf8.EncodeDecode | lambdas/poll/src/main.rs:150 | bytes that decode are the encoding of what they decode to |
| Poll.QueryLimit | lambdas/poll/src/main.rs:62-66 | the `limit` query parameter when it parses as a u32, else 100 |
| Poll.QueryLimitReads | lambdas/poll/src/main.rs:62-66 | a decimal limit up to u32::MAX is read back |
| Poll.PerPartitionLimit | lambdas/poll/src/main.rs:85 | the per-partition limit is at least 1; it is the largest n with n times the count at most the limit, or 1 when the limit is below the count; with two partitions or more it fits an i32 |
| Poll.CursorEntry | lambdas/poll/src/main.rs:98-105 | a partition's entry is the sequence of the last event read, or the start offset when none was read |
| Poll.PollBatch | lambdas/poll/src/main.rs:87-119 | a batch returns at most `limit` events and one cursor entry per partition, in partition order |
| Poll.SortSorted | lambdas/poll/src/main.rs:111 | the sort orders events by timestamp |
| Poll.SortPermutes | lambdas/poll/src/main.rs:111 | the sort neither adds nor drops events |
| Poll.SortStable | lambdas/poll/src/main.rs:111 | events with equal timestamps keep their order |
| Poll.HandlePoll | lambdas/poll/src/main.rs:53-131 | a missing stream or subscription is the error reply; a stream of zero partitions crashes; otherwise, and only then, 200 with the batch's events, the encoded cursor and `remaining` 0 |
| Poll.HandleCommit | lambdas/poll/src/main.rs:133-169 | a body that is not UTF-8 or that the reader rejects crashes; an invalid cursor crashes with its message, and none of these changes the table; otherwise the table is the commit's (partial writes included), the reply is 200 with a success body exactly when the commit succeeds, and a failed commit is its error's reply |
| Poll.RouteOf | lambdas/poll/src/main.rs:37-50 | GET on a path ending "/poll" polls, POST on a path ending "/commit" commits, anything else is not found |
| Poll.Handler | lambdas/poll/src/main.rs:16-51 | missing path parameters crash; a GET on `/poll` is `handle_poll` with the cursor built as written, from every event read; a POST on `/commit` is `handle_commit`; only a commit can change the table; an unknown route is 404 |
| Poll.PartitionEventsSound | lambdas/poll/src/main.rs:88-105 | every event read for a partition is stored there above the committed offset |
| Poll.CursorEntryCovers | lambdas/poll/src/main.rs:98-105 | a partition's cursor entry is at least every sequence read from it |
| Poll.ReadAllSound | lambdas/poll/src/main.rs:87-108 | every event gathered is stored, in its partition, above that partition's offset |
| Poll.ReadAllComplete | lambdas/poll/src/main.rs:87-108 | every event each partition read is gathered |
| Poll.ReadAllDistinct | lambdas/poll/src/main.rs:87-108 | no event is gathered twice |
| Poll.PollBatchReturns | lambdas/poll/src/main.rs:111-114 | the batch's events are the earliest events gathered, in timestamp order |
| Poll.PollBatchSound | lambdas/poll/src/main.rs:87-114 | every returned event is stored above the subscription's offset for its partition, and none is returned twice |
| Poll.PollBatchDistinct | lambdas/poll/src/main.rs:87-114 | the events a poll returns are pairwise distinct |
| Poll.PollCursorShape | lambdas/poll/src/main.rs:117-119 | the cursor has one entry per partition, naming partitions 0 to count-1 in order |
| Poll.TruncatedEventsSkipped | lambdas/poll/src/main.rs:98-119 | as written, two partitions with one new event each, polled with limit 1, return one event but advance both partitions' cursors |
| Poll.UndeliveredEventsKept | lambdas/poll/src/main.rs:98-119 | with the corrected cursor, every event read but not returned stays above its partition's cursor entry, so a committed cursor does not skip it |
| Poll.NothingDroppedSameCursor | lambdas/poll/src/main.rs:98-119 | when truncation drops nothing, the corrected cursor equals the one the code computes |
| Poll.EntryAgrees | lambdas/poll/src/main.rs:98-105 | the two cursor rules agree on a partition none of whose read events was dropped |
| Poll.CommitCursorStores | lambdas/poll/src/main.rs:156-168 | committing a cursor stores each partition's last listed offset |
| Poll.PollThenCommit | lambdas/poll/src/main.rs:53-169 | committing the cursor of a successful poll is a 200, after which every partition's offset is its cursor entry |
| Publish.ShapeOf | lambdas/publish/src/main.rs:25-33 | a body is an array exactly when its trimmed text starts with "[", else a wrapper exactly when it mentions `"events"`, else a single event |
| Publish.DecodeBody | lambdas/publish/src/main.rs:25-33 | each shape is read with its own reader, and a single event becomes a one-element list |
| Publish.Handler | lambdas/publish/src/main.rs:10-69 | a missing stream id, a non-UTF-8 body or one the reader rejects crashes; no events is a 400 validation error that changes nothing; the table changes only by publishing the body's events; a successful publish of a non-empty list is 200 with the references, and only it is; a failed one is its error's reply, with that error's status and code |
| Publish.HandleEvents | lambdas/publish/src/main.rs:33-67 | no events is a 400 that changes nothing; otherwise success is 200 with the references, a failure its error's reply over the partly written table, and a panic a crash that keeps the table |
| Publish.LeadingWhitespaceArray | lambdas/publish/src/main.rs:25-26 | whitespace before "[" still selects the array shape |
| Publish.PublishedAreStored | lambdas/publish/src/main.rs:51-58 | a 200 lists one reference per body event, in order, with the stream, key and time, each stored under its partition and sequence |
| Admin.RouteOf | lambdas/admin/src/main.rs:47-114 | the arm chosen for each method and path, with earlier arms taking precedence |
| Admin.ReadBody | lambdas/admin/src/main.rs:51-52 | a body is read when it is UTF-8 and the reader accepts it; otherwise the handler fails |
| Admin.CreateStreamReply | lambdas/admin/src/main.rs:49-57 | a body that does not read crashes and changes nothing; otherwise the table is the create's, 201 exactly on success with the stream, and a failure is its error reply |
| Admin.ListStreamsReply | lambdas/admin/src/main.rs:61-64 | 200 with the streams exactly when the scan succeeds |
| Admin.GetStreamReply | lambdas/admin/src/main.rs:67-74 | 200 with the stream exactly when it is found |
| Admin.DeleteStreamReply | lambdas/admin/src/main.rs:77-84 | the table is the delete's; 200 with a success body exactly when the delete succeeds; a failure is its error reply |
| Admin.CreateSubscriptionReply | lambdas/admin/src/main.rs:87-98 | a body that does not read crashes; otherwise the table is the create's, 201 exactly on success with the subscription, and a failure is its error reply |
| Admin.Handler | lambdas/admin/src/main.rs:30-115 | a crash changes nothing; statuses are 200, 201, 400, 404, 409 or 500; 201 only on the create routes; reading routes change nothing; an unknown route is 404; deleting a subscription is a bare 200; each other route is answered by its reply function (create, list, get and delete a stream, create a subscription), and a missing stream id crashes |
| Admin.DeleteSubscriptionKeeps | lambdas/admin/src/main.rs:101-104 | deleting a subscription answers success but leaves the subscription readable |
| Admin.CreateThenGet | lambdas/admin/src/main.rs:49-74 | a stream created with 201 is then fetched with 200 and the same body |
| Compactor.GetString | lambdas/compactor/src/main.rs:15-20 | a string attribute's text, or nothing for other types |
| Compactor.GetNumberStr | lambdas/compactor/src/main.rs:23-28 | a number attribute's text, or nothing for other types |
| Compactor.DataOf | lambdas/compactor/src/main.rs:88-97 | a string payload is parsed as JSON or is null, a map payload is an empty object, anything else is null |
| Compactor.TimestampOf | lambdas/compactor/src/main.rs:99-104 | the parsed timestamp, or the handler's `now` when missing or unparsable |
| Compactor.Decode | lambdas/compactor/src/main.rs:31-104 | a record is ignored exactly when it is neither INSERT nor MODIFY, has an empty image, or its sort key lacks "SEQ#"; otherwise the first missing field in the code's order (stream_id, key, event_type, sequence, partition) names the malformed record, and a record with all five decodes to the compacted event built from them |
| Compactor.EventImageDecodes | lambdas/compactor/src/main.rs:31-104 | the image of a stored event decodes to that event's compacted form |
| Compactor.ProcessRecord | lambdas/compactor/src/main.rs:31-140 | the table is left alone or gets exactly the record's compacted row; ignored and malformed records change nothing |
| Compactor.ProcessEvent | lambdas/compactor/src/main.rs:106-130 | a decoded event leaves the table alone or is written as its key's compacted row |
| Compactor.ProcessRowOrigin | lambdas/compactor/src/main.rs:106-130 | a record writes nothing but its own compacted form, under its own key |
| Compactor.ProcessKeepsTyped | lambdas/compactor/src/main.rs:106-130 | whatever fails, every compacted row keeps holding a compacted event |
| Compactor.EventModesAgree | lambdas/compactor/src/main.rs:108-113 | when the row's lookup succeeds, the failed-lookup handling as written and as corrected process the event alike |
| Compactor.ModesAgree | lambdas/compactor/src/main.rs:108-113 | while no compacted row's lookup fails and every compacted row holds a compacted event, both handlings process a record alike |
| Compactor.ReadableNeverRegresses | lambdas/compactor/src/main.rs:106-130 | while no compacted row's lookup fails, processing as written moves no row to a lower sequence either |
| Compactor.ProcessWellFormed | lambdas/compactor/src/main.rs:116-130 | processing keeps the table well formed |
| Compactor.ProcessIdempotent | lambdas/compactor/src/main.rs:106-130 | processing a record twice has the effect of processing it once |
| Compactor.ReadFailureRegresses | lambdas/compactor/src/main.rs:108-130 | as written, a failed read of the compacted row lets an older event overwrite a newer one |
| Compactor.NeverRegresses | lambdas/compactor/src/main.rs:106-130 | corrected: with a failed read skipping the record, no row's sequence ever decreases, whatever fails |
| Compactor.ProcessCovers | lambdas/compactor/src/main.rs:106-130 | when its calls succeed, the row afterwards is at least as new as the record |
| Compactor.MergeCommutes | lambdas/compactor/src/main.rs:106-113 | keeping the newer of two events does not depend on the order they arrive |
| Compactor.ProcessCommutes | lambdas/compactor/src/main.rs:106-130 | without faults, two records processed in either order leave the same table |
| Compactor.ProcessAll | lambdas/compactor/src/main.rs:153-158 | processing a batch changes only compacted rows |
| Compactor.Handler | lambdas/compactor/src/main.rs:142-161 | as written: only compacted rows change; while no compacted row's lookup fails, every compacted row is at least as new as before; when besides every compacted row holds a compacted event, the result is the corrected handler's |
| Compactor.HandlerRegresses | lambdas/compactor/src/main.rs:106-161 | as written, a one-record batch whose row lookup fails overwrites a newer row with an older event |
| Compactor.CorrectedHandler | lambdas/compactor/src/main.rs:142-161 | corrected: whatever fails, after a batch every compacted row is at least as new as before, and nothing else changes |
| Compactor.BatchNeverRegresses | lambdas/compactor/src/main.rs:142-161 | corrected: no row's sequence decreases over a batch, whatever fails |
| Compactor.BatchReadableNeverRegresses | lambdas/compactor/src/main.rs:142-161 | as written or corrected, while no compacted row's lookup fails no row's sequence decreases over a batch |
| Compactor.BatchModesAgree | lambdas/compactor/src/main.rs:142-161 | while no compacted row's lookup fails and every compacted row holds a compacted event, the batch as written and as corrected leave the same table |
| Compactor.BatchCovers | lambdas/compactor/src/main.rs:142-161 | without faults on compacted rows, as written or corrected, after a batch each record's row is at least as new as the record |
| Compactor.CorrectedBatchCovers | lambdas/compactor/src/main.rs:142-161 | the same for the corrected handling, in any delivery order |
| Compactor.BatchRowOrigin | lambdas/compactor/src/main.rs:142-161 | whatever fails, every row after a batch is the row before it or the compacted form of one of the batch's records under that record's key |
| Compactor.BatchHoldsLatest | lambdas/compactor/src/main.rs:142-161 | without faults on compacted rows, each compacted row after a batch is the latest of the event it held and those the batch carried for its key: one of them, and at least as new as each |

## Left out

- The AWS SDK, the Lambda runtime, tracing and environment variables are not modelled. Store calls become operations on a map, and their failures become the `Faults` parameter.
- serde_json's readers of request bodies are parameters. Its writers are modelled only where a round trip depends on them: the cursor's JSON and whether an error body has a `details` member. Other response bodies are kept as typed values.
- chrono's clock and timestamp parsing are parameters, and SHA-256 is a parameter of the partitioner.
- Concurrency is not modelled. Two publishers racing on one counter, and a compactor racing with itself, are outside the model; each handler runs alone.
- DynamoDB's 1 MB page limit and scan pagination are not modelled. A query returns up to its `Limit` in one page, and a scan sees the whole table.
- Dynamo.CreateSubscription: the first, unused `get_latest_offset(stream_id, 0)` read (dynamo.rs:339) is not modelled. It has no effect, because its result and failure are discarded by `unwrap_or(0)`.
- Dynamo.ListStreams: returns a set, because the scan's order is unspecified.
- Cursor.ParseCursorJson accepts only the compact layout serde writes, not every JSON text serde would accept (whitespace, field order). `Cursor.CursorRoundTrip` holds for any reader that reads the compact layout back.
- `ConsumerOffset` (models.rs) is declared but never used by the handlers. It is not modelled.
- The partitioner's statistical distribution test (partitioner.rs:71-94) is about SHA-256's output. It is not a property of this code.
- The integration tests (tests/integration) drive the deployed API and are not modelled.
- Compactor.Handler: one `now` per batch is a parameter, whereas the source reads the clock per record.
- Dynamo.CommitOffsets: one `now` is passed to every `set_offset`, whereas the source reads the clock once per entry (dynamo.rs:399), so the stored update times may differ slightly in the source.
- Compactor.Handler: promises that no compacted row regresses only while the compacted rows' lookups succeed, because as written a failed lookup lets an older event overwrite a newer row (see Findings and `Compactor.HandlerRegresses`). `Compactor.CorrectedHandler` promises it whatever fails.
- A partition count of 0 is not excluded by a precondition. `publish_events` then panics on the partitioner's assertion, modelled as `Panicked`. `handle_poll` then divides by zero, modelled as `Crash`.

Some of the code's behaviour departs from what its routes suggest (for example, the DELETE subscription route listed at admin/src/main.rs:9 deletes nothing). The model follows the code:

- `handle_commit` propagates an invalid cursor with `?`, so it becomes a failure of the Lambda handler, not a 400 reply.
- The DELETE subscription route answers success without deleting anything.
- A commit may move an offset backwards (`Lifecycle.CommitRewinds`).
- An increment of a missing counter is a database error.
- The per-partition limit is at least 1 (`.max(1)`), and the store query casts it `as i32` (dynamo.rs:286). A per-partition limit above i32::MAX, which only a stream with one partition can reach, therefore wraps to a negative number and is rejected by the store. With two or more partitions the per-partition limit is at most i32::MAX.

## Findings

`Poll.Handler` and `Compactor.Handler` model the code as written. The corrected behaviour
sits beside each: the `ReturnedOnly` cursor rule of `Poll.PollBatch`, and
`Compactor.CorrectedHandler`. Lemmas relate each pair: `Poll.NothingDroppedSameCursor`
and `Compactor.BatchModesAgree`.

| source | as written | input that shows it | evidently intended | confidence | as-written member | corrected member |
|---|---|---|---|---|---|---|
| lambdas/poll/src/main.rs:98-119 | each partition's cursor entry is the last sequence read from it, computed before the merged events are truncated to `limit` | a subscription at offset 0 on two partitions, each holding one new event; poll with limit 1 | the cursor advances only past events actually returned, so that committing it does not skip events cut off by the limit | not executed | Poll.TruncatedEventsSkipped | Poll.UndeliveredEventsKept |
| lambdas/compactor/src/main.rs:108-130 | `if let Ok(Some(existing))` treats a failed read of the compacted row like a missing row and writes the record | a compacted row at sequence 5, a record at sequence 3 for the same key, and the read of the row failing | a record is written only when the row is known to be absent or older; a failed read skips the record | not executed | Compactor.HandlerRegresses | Compactor.CorrectedHandler |
