/** The poll Lambda: routing, the poll engine (per-partition reads from the committed
    offsets, a stable sort by timestamp, truncation, the cursor) and the commit of a
    cursor. */
module Poll {
  import opened Wrappers
  import opened Strings
  import opened Numbers
  import opened Keys
  import opened Models
  import opened Errors
  import opened Store
  import opened Dynamo
  import opened Reading
  import opened Lifecycle
  import opened Cursor
  import opened Http
  import Utf8

  /** Rust's panic message for an integer division by zero. */
  const DIVIDE_BY_ZERO := "attempt to divide by zero"

  // ---------------------------------------------------------------------------
  // Limits
  // ---------------------------------------------------------------------------

  /** The `limit` query parameter read as a `u32`, or the default batch size when it is
      absent or does not parse. */
  function QueryLimit(query: map<string, string>): (limit: u32)
    ensures "limit" !in query ==> limit == DEFAULT_BATCH_SIZE
  {
    if "limit" in query then ParseUnsigned(query["limit"], U32_MAX).GetOr(DEFAULT_BATCH_SIZE)
    else DEFAULT_BATCH_SIZE
  }

  /** A limit written in decimal is read back; text that is not a `u32` falls back to the
      default. */
  lemma QueryLimitReads(n: u32, s: string)
    ensures QueryLimit(map["limit" := Decimal(n)]) == n
    ensures ParseUnsigned(s, U32_MAX).None? ==> QueryLimit(map["limit" := s]) == DEFAULT_BATCH_SIZE
  {
    ParseDecimal(n, U32_MAX);
  }

  /** The read limit of each partition: an even share of `limit`, at least 1. */
  function PerPartitionLimit(limit: u32, count: u32): (n: u32)
    requires count > 0
    ensures 1 <= n
    ensures n <= limit || n == 1
    ensures count <= limit ==> n * count <= limit < (n + 1) * count
    ensures limit < count ==> n == 1
    ensures count >= 2 ==> n <= I32_MAX
  {
    var share := limit / count;
    DivBounds(limit, count);
    ShareFitsI32(limit, count);
    if share < 1 then 1 else share
  }

  /** With two partitions or more, a share of a `u32` fits an `i32`. */
  lemma ShareFitsI32(limit: u32, count: u32)
    requires count > 0
    ensures count >= 2 ==> limit / count <= I32_MAX
  {
    var share := limit / count;
    DivBounds(limit, count);
    if count >= 2 {
      MulAtLeastTwice(share, count);
    }
  }

  lemma MulAtLeastTwice(q: nat, b: nat)
    requires b >= 2
    ensures 2 * q <= q * b
  {
    assert q * b == q * (b - 2) + 2 * q;
  }

  lemma DivBounds(a: nat, b: nat)
    requires b > 0
    ensures (a / b) * b <= a < (a / b + 1) * b
    ensures a / b <= a
    ensures a < b <==> a / b == 0
  {
    var q, r := a / b, a % b;
    assert a == q * b + r && 0 <= r < b;
    QuotientBounds(a, b, q, r);
  }

  /** The bounds of a quotient, from the division identity alone. */
  lemma QuotientBounds(a: nat, b: nat, q: nat, r: nat)
    requires b > 0 && a == q * b + r && r < b
    ensures q * b <= a < (q + 1) * b
    ensures q <= a
    ensures a < b <==> q == 0
  {
    MulSucc(q, b);
    MulAtLeast(q, b);
    if q > 0 {
      MulAtLeast(b, q);
      MulCommutes(b, q);
    }
  }

  lemma MulSucc(q: nat, b: nat)
    ensures (q + 1) * b == q * b + b
  {
  }

  lemma MulCommutes(a: nat, b: nat)
    ensures a * b == b * a
  {
  }

  lemma MulAtLeast(q: nat, b: nat)
    requires b > 0
    ensures q <= q * b
  {
    assert q * b == q * (b - 1) + q;
  }

  // ---------------------------------------------------------------------------
  // Reading the partitions
  // ---------------------------------------------------------------------------

  /** The offset a poll reads a partition from: the committed one, 0 if that lookup fails. */
  function StartOffset(t: Table, f: Faults, streamId: string, subscriptionId: string, partition: u32): u64 {
    GetOffset(t, f, streamId, subscriptionId, partition).GetOr(0)
  }

  /** The events a poll reads from a partition; none if the read fails. */
  function PartitionEvents(t: Table, f: Faults, streamId: string, subscriptionId: string, partition: u32, per: u32)
    : seq<Event>
  {
    ReadEvents(t, f, streamId, partition, StartOffset(t, f, streamId, subscriptionId, partition), per).GetOr([])
  }

  /** A partition's cursor entry: the sequence of the last event read, otherwise the
      offset the read started from. */
  function CursorEntry(t: Table, f: Faults, streamId: string, subscriptionId: string, partition: u32, per: u32)
    : (po: PartitionOffset)
    ensures po.partition == partition
    ensures PartitionEvents(t, f, streamId, subscriptionId, partition, per) == [] ==>
      po.offset == StartOffset(t, f, streamId, subscriptionId, partition)
    ensures var es := PartitionEvents(t, f, streamId, subscriptionId, partition, per);
      es != [] ==> po.offset == es[|es| - 1].sequence
  {
    var events := PartitionEvents(t, f, streamId, subscriptionId, partition, per);
    if |events| > 0 then PartitionOffset(partition, events[|events| - 1].sequence)
    else PartitionOffset(partition, StartOffset(t, f, streamId, subscriptionId, partition))
  }

  /** The events `handle_poll`'s loop collects from partitions `p` to `count - 1`, in
      partition order. */
  function ReadAll(t: Table, f: Faults, streamId: string, subscriptionId: string, p: nat, count: u32, per: u32)
    : seq<Event>
    decreases count - p
  {
    if p >= count then []
    else PartitionEvents(t, f, streamId, subscriptionId, p, per) + ReadAll(t, f, streamId, subscriptionId, p + 1, count, per)
  }

  /** The offset below which every event of `batch` is in `returned`: the sequence of the
      last event of the longest prefix of `batch` that was returned, otherwise `from`. */
  function Delivered(batch: seq<Event>, returned: seq<Event>, from: u64): u64
    decreases |batch|
  {
    if |batch| == 0 || batch[0] !in returned then from
    else Delivered(batch[1..], returned, batch[0].sequence)
  }

  /** What a cursor entry records. */
  datatype CursorRule =
    /** As written: the last event read from the partition, whether or not it was returned. */
    | AllRead
    /** Corrected: only as far as the events read from the partition were returned. */
    | ReturnedOnly

  /** A partition's cursor entry under `rule`, given the events the poll returns. */
  function Entry(rule: CursorRule, t: Table, f: Faults, streamId: string, subscriptionId: string,
                 partition: u32, per: u32, returned: seq<Event>): (po: PartitionOffset)
    ensures po.partition == partition
  {
    match rule
    case AllRead => CursorEntry(t, f, streamId, subscriptionId, partition, per)
    case ReturnedOnly =>
      PartitionOffset(partition, Delivered(PartitionEvents(t, f, streamId, subscriptionId, partition, per), returned,
                                           StartOffset(t, f, streamId, subscriptionId, partition)))
  }

  /** The cursor entries of partitions 0 to `count - 1`, in partition order. */
  function Entries(rule: CursorRule, t: Table, f: Faults, streamId: string, subscriptionId: string,
                   count: u32, per: u32, returned: seq<Event>): (es: seq<PartitionOffset>)
    ensures |es| == count
    ensures forall i: int :: 0 <= i < count ==> es[i] == Entry(rule, t, f, streamId, subscriptionId, i, per, returned)
  {
    seq(count, (i: int) requires 0 <= i < count => Entry(rule, t, f, streamId, subscriptionId, i, per, returned))
  }

  /** One poll of a stream with `count` partitions: the events read, the events returned
      and the cursor. */
  datatype Batch = Batch(read: seq<Event>, events: seq<Event>, cursor: CursorState)

  function PollBatch(t: Table, f: Faults, streamId: string, subscriptionId: string, limit: u32, count: u32,
                     rule: CursorRule): (b: Batch)
    requires count > 0
    ensures |b.events| <= limit
    ensures |b.cursor.offsets| == count
    ensures forall i :: 0 <= i < count ==> b.cursor.offsets[i].partition == i
  {
    var per := PerPartitionLimit(limit, count);
    var read := ReadAll(t, f, streamId, subscriptionId, 0, count, per);
    var events := Take(SortByTime(read), limit);
    Batch(read, events, CursorState(Entries(rule, t, f, streamId, subscriptionId, count, per, events)))
  }

  // ---------------------------------------------------------------------------
  // Stable sort by timestamp
  // ---------------------------------------------------------------------------

  predicate SortedByTime(es: seq<Event>) {
    forall i, j :: 0 <= i < j < |es| ==> es[i].timestamp <= es[j].timestamp
  }

  /** The events of `es` with timestamp `ts`, in their order in `es`. */
  function WithTime(es: seq<Event>, ts: int): seq<Event>
    decreases |es|
  {
    if |es| == 0 then []
    else WithTime(es[..|es| - 1], ts) + (if es[|es| - 1].timestamp == ts then [es[|es| - 1]] else [])
  }

  /** Inserts `e` after every element of the sorted `s` whose timestamp is not later. */
  function Insert(s: seq<Event>, e: Event): (r: seq<Event>)
    ensures |r| == |s| + 1
    decreases |s|
  {
    if |s| == 0 || s[|s| - 1].timestamp <= e.timestamp then s + [e]
    else Insert(s[..|s| - 1], e) + [s[|s| - 1]]
  }

  /** `sort_by` on timestamps, which is stable: an insertion sort. */
  function SortByTime(es: seq<Event>): (r: seq<Event>)
    ensures |r| == |es|
    decreases |es|
  {
    if |es| == 0 then [] else Insert(SortByTime(es[..|es| - 1]), es[|es| - 1])
  }

  lemma {:induction false} InsertPermutes(s: seq<Event>, e: Event)
    ensures multiset(Insert(s, e)) == multiset(s) + multiset{e}
    decreases |s|
  {
    if !(|s| == 0 || s[|s| - 1].timestamp <= e.timestamp) {
      var init := s[..|s| - 1];
      InsertPermutes(init, e);
      assert s == init + [s[|s| - 1]];
    }
  }

  lemma {:induction false} InsertSorted(s: seq<Event>, e: Event)
    requires SortedByTime(s)
    ensures SortedByTime(Insert(s, e))
    decreases |s|
  {
    var r := Insert(s, e);
    if |s| == 0 || s[|s| - 1].timestamp <= e.timestamp {
      assert r == s + [e];
    } else {
      var init := s[..|s| - 1];
      var last := s[|s| - 1];
      InsertSorted(init, e);
      InsertPermutes(init, e);
      var ri := Insert(init, e);
      assert r == ri + [last];
      forall i, j | 0 <= i < j < |r|
        ensures r[i].timestamp <= r[j].timestamp
      {
        if j == |r| - 1 {
          assert r[i] == ri[i];
          assert ri[i] in multiset(ri);
          if ri[i] != e {
            assert ri[i] in multiset(init);
            var k :| 0 <= k < |init| && init[k] == ri[i];
            assert s[k] == init[k];
          }
        } else {
          assert r[i] == ri[i] && r[j] == ri[j];
        }
      }
    }
  }

  /** Insertion keeps the order among events of one timestamp and puts `e` after them. */
  lemma {:induction false} InsertStable(s: seq<Event>, e: Event, ts: int)
    ensures WithTime(Insert(s, e), ts) == WithTime(s, ts) + (if e.timestamp == ts then [e] else [])
    decreases |s|
  {
    var r := Insert(s, e);
    if |s| == 0 || s[|s| - 1].timestamp <= e.timestamp {
      assert r[..|r| - 1] == s;
    } else {
      var init := s[..|s| - 1];
      InsertStable(init, e, ts);
      assert r[..|r| - 1] == Insert(init, e);
    }
  }

  /** The sort orders by timestamp. */
  lemma {:induction false} SortSorted(es: seq<Event>)
    ensures SortedByTime(SortByTime(es))
    decreases |es|
  {
    if |es| > 0 {
      SortSorted(es[..|es| - 1]);
      InsertSorted(SortByTime(es[..|es| - 1]), es[|es| - 1]);
    }
  }

  /** The sort neither loses nor invents events. */
  lemma {:induction false} SortPermutes(es: seq<Event>)
    ensures multiset(SortByTime(es)) == multiset(es)
    decreases |es|
  {
    if |es| > 0 {
      var init := es[..|es| - 1];
      SortPermutes(init);
      InsertPermutes(SortByTime(init), es[|es| - 1]);
      assert es == init + [es[|es| - 1]];
    }
  }

  /** The sort is stable: events with equal timestamps keep their relative order. */
  lemma {:induction false} SortStable(es: seq<Event>, ts: int)
    ensures WithTime(SortByTime(es), ts) == WithTime(es, ts)
    decreases |es|
  {
    if |es| > 0 {
      var init := es[..|es| - 1];
      SortStable(init, ts);
      InsertStable(SortByTime(init), es[|es| - 1], ts);
    }
  }

  // ---------------------------------------------------------------------------
  // Poll and commit
  // ---------------------------------------------------------------------------

  /** `handle_poll`: the stream and the subscription must exist; every partition is read
      from its committed offset; the events are sorted by timestamp and cut to `limit`;
      the cursor's entries follow `rule`. `remaining` is always 0. A stream with no
      partitions divides by zero and panics. */
  function HandlePoll(t: Table, f: Faults, streamId: string, subscriptionId: string, query: map<string, string>,
                      rule: CursorRule): (r: Reply)
    ensures GetStream(t, f, streamId).Err? ==> r == ErrorReply(GetStream(t, f, streamId).error)
    ensures GetStream(t, f, streamId).Ok? && GetSubscription(t, f, streamId, subscriptionId).Err? ==>
      r == ErrorReply(GetSubscription(t, f, streamId, subscriptionId).error)
    ensures r.Crash? <==>
      GetStream(t, f, streamId).Ok? && GetSubscription(t, f, streamId, subscriptionId).Ok?
      && GetStream(t, f, streamId).value.partitionCount == 0
    ensures r.Respond? && r.status == 200 ==>
      && GetStream(t, f, streamId).Ok? && GetStream(t, f, streamId).value.partitionCount > 0
      && var b := PollBatch(t, f, streamId, subscriptionId, QueryLimit(query),
                            GetStream(t, f, streamId).value.partitionCount, rule);
         r.body == PollBody(PollResponse(b.events, EncodeCursor(b.cursor), 0))
    ensures (GetStream(t, f, streamId).Ok? && GetSubscription(t, f, streamId, subscriptionId).Ok?
             && GetStream(t, f, streamId).value.partitionCount > 0) ==>
      var b := PollBatch(t, f, streamId, subscriptionId, QueryLimit(query),
                         GetStream(t, f, streamId).value.partitionCount, rule);
      r == Respond(200, PollBody(PollResponse(b.events, EncodeCursor(b.cursor), 0)))
  {
    match GetStream(t, f, streamId)
    case Err(e) => ErrorReply(e)
    case Ok(stream) =>
      match GetSubscription(t, f, streamId, subscriptionId)
      case Err(e) => ErrorReply(e)
      case Ok(_) =>
        if stream.partitionCount == 0 then Crash(DIVIDE_BY_ZERO)
        else
          var b := PollBatch(t, f, streamId, subscriptionId, QueryLimit(query), stream.partitionCount, rule);
          Respond(200, PollBody(PollResponse(b.events, EncodeCursor(b.cursor), 0)))
  }

  /** `handle_commit`: the body is read as UTF-8 and as a `CommitRequest` (with
      `parseRequest` standing for serde_json), the cursor is decoded (with `parseCursor`
      for serde_json's reader of the cursor state), then its offsets are committed. A
      body or cursor that does not decode is returned to the runtime as a failure, so
      the handler gives no error body for it; nothing is written. */
  function HandleCommit(t: Table, f: Faults, streamId: string, subscriptionId: string, body: seq<byte>,
                        parseRequest: string -> Option<CommitRequest>,
                        parseCursor: string -> Option<CursorState>, now: int): (r: Handled)
    ensures r.reply.Crash? ==> r.table == t
    ensures Utf8.Decode(body).None? ==> r == Handled(t, Crash(INVALID_BODY))
    ensures (Utf8.Decode(body).Some? && parseRequest(Utf8.Decode(body).value).Some?
             && DecodeCursor(parseRequest(Utf8.Decode(body).value).value.cursor, parseCursor).Err?) ==>
      r == Handled(t, Crash(Display(DecodeCursor(parseRequest(Utf8.Decode(body).value).value.cursor, parseCursor).error)))
    ensures r.reply.Respond? && r.reply.status == 200 ==> r.reply.body == SuccessBody(true)
    ensures (Utf8.Decode(body).Some? && parseRequest(Utf8.Decode(body).value).None?) ==>
      r == Handled(t, Crash(UNREADABLE_BODY))
    ensures (Utf8.Decode(body).Some? && parseRequest(Utf8.Decode(body).value).Some?
             && DecodeCursor(parseRequest(Utf8.Decode(body).value).value.cursor, parseCursor).Ok?) ==>
      var c := CommitOffsets(t, f, streamId, subscriptionId,
                             DecodeCursor(parseRequest(Utf8.Decode(body).value).value.cursor, parseCursor).value.offsets,
                             now);
      && r.table == c.table
      && (r.reply == Respond(200, SuccessBody(true)) <==> c.outcome.Done?)
      && (c.outcome.Failed? ==> r.reply == ErrorReply(c.outcome.error))
  {
    match Utf8.Decode(body)
    case None => Handled(t, Crash(INVALID_BODY))
    case Some(text) =>
      match parseRequest(text)
      case None => Handled(t, Crash(UNREADABLE_BODY))
      case Some(req) =>
        match DecodeCursor(req.cursor, parseCursor)
        case Err(e) => Handled(t, Crash(Display(e)))
        case Ok(state) =>
          var c := CommitOffsets(t, f, streamId, subscriptionId, state.offsets, now);
          if c.outcome.Done? then Handled(c.table, Respond(200, SuccessBody(true)))
          else Handled(c.table, ErrorReply(c.outcome.error))
  }

  /** The route of the poll Lambda. */
  datatype PollRoute = PollEvents | CommitCursor | NoRoute

  function RouteOf(httpMethod: string, path: string): (r: PollRoute)
    ensures r == PollEvents <==> httpMethod == "GET" && EndsWith(path, "/poll")
    ensures r == CommitCursor <==> httpMethod == "POST" && EndsWith(path, "/commit")
  {
    if httpMethod == "GET" && EndsWith(path, "/poll") then PollEvents
    else if httpMethod == "POST" && EndsWith(path, "/commit") then CommitCursor
    else NoRoute
  }

  /** The poll Lambda's handler: both path parameters are required; then the route. A
      poll builds its cursor as written, from every event read. */
  function Handler(t: Table, f: Faults, req: Request,
                   parseRequest: string -> Option<CommitRequest>,
                   parseCursor: string -> Option<CursorState>, now: int): (r: Handled)
    ensures "stream_id" !in req.pathParams ==> r == Handled(t, Crash("Missing stream_id"))
    ensures "stream_id" in req.pathParams && "subscription_id" !in req.pathParams ==>
      r == Handled(t, Crash("Missing subscription_id"))
    ensures RouteOf(req.httpMethod, req.path) != CommitCursor ==> r.table == t
    ensures ("stream_id" in req.pathParams && "subscription_id" in req.pathParams
             && RouteOf(req.httpMethod, req.path) == NoRoute) ==> r.reply == NOT_FOUND
    ensures ("stream_id" in req.pathParams && "subscription_id" in req.pathParams
             && RouteOf(req.httpMethod, req.path) == PollEvents) ==>
      r == Handled(t, HandlePoll(t, f, req.pathParams["stream_id"], req.pathParams["subscription_id"],
                                 req.query, AllRead))
    ensures ("stream_id" in req.pathParams && "subscription_id" in req.pathParams
             && RouteOf(req.httpMethod, req.path) == CommitCursor) ==>
      r == HandleCommit(t, f, req.pathParams["stream_id"], req.pathParams["subscription_id"], req.body,
                        parseRequest, parseCursor, now)
  {
    if "stream_id" !in req.pathParams then Handled(t, Crash("Missing stream_id"))
    else if "subscription_id" !in req.pathParams then Handled(t, Crash("Missing subscription_id"))
    else
      var streamId := req.pathParams["stream_id"];
      var subscriptionId := req.pathParams["subscription_id"];
      match RouteOf(req.httpMethod, req.path)
      case PollEvents => Handled(t, HandlePoll(t, f, streamId, subscriptionId, req.query, AllRead))
      case CommitCursor => HandleCommit(t, f, streamId, subscriptionId, req.body, parseRequest, parseCursor, now)
      case NoRoute => Handled(t, NOT_FOUND)
  }

  // ---------------------------------------------------------------------------
  // What a poll reads
  // ---------------------------------------------------------------------------

  /** The events read from one partition are stored events of that partition above the
      offset the read started from, in strictly ascending sequence order. */
  lemma PartitionEventsSound(t: Table, f: Faults, streamId: string, subscriptionId: string, partition: u32, per: u32)
    requires WellFormed(t)
    ensures var es := PartitionEvents(t, f, streamId, subscriptionId, partition, per);
      && Ascends(es)
      && (forall i :: 0 <= i < |es| ==> StartOffset(t, f, streamId, subscriptionId, partition) < es[i].sequence)
      && (forall e :: e in es ==>
            && e.streamId == streamId && e.partition == partition
            && EventKey(streamId, partition, e.sequence) in t
            && t[EventKey(streamId, partition, e.sequence)] == EventItem(e))
  {
    ReadEventsSound(t, f, streamId, partition, StartOffset(t, f, streamId, subscriptionId, partition), per);
    var es := PartitionEvents(t, f, streamId, subscriptionId, partition, per);
    assert forall i :: 0 <= i < |es| ==> es[i] in es;
  }

  /** Every event read lies at or below its partition's as-written cursor entry. */
  lemma CursorEntryCovers(t: Table, f: Faults, streamId: string, subscriptionId: string, partition: u32, per: u32)
    requires WellFormed(t)
    ensures forall e :: e in PartitionEvents(t, f, streamId, subscriptionId, partition, per) ==>
      e.sequence <= CursorEntry(t, f, streamId, subscriptionId, partition, per).offset
  {
    PartitionEventsSound(t, f, streamId, subscriptionId, partition, per);
    var es := PartitionEvents(t, f, streamId, subscriptionId, partition, per);
    forall e | e in es
      ensures e.sequence <= es[|es| - 1].sequence
    {
      var i :| 0 <= i < |es| && es[i] == e;
    }
  }

  /** Everything a poll reads comes from one of the partitions it visits, and was read
      from that partition. */
  lemma {:induction false} ReadAllSound(t: Table, f: Faults, streamId: string, subscriptionId: string,
                                        p: nat, count: u32, per: u32)
    requires WellFormed(t)
    ensures forall e :: e in ReadAll(t, f, streamId, subscriptionId, p, count, per) ==>
      && e.streamId == streamId && p <= e.partition < count
      && e in PartitionEvents(t, f, streamId, subscriptionId, e.partition, per)
    decreases count - p
  {
    if p < count {
      ReadAllSound(t, f, streamId, subscriptionId, p + 1, count, per);
      PartitionEventsSound(t, f, streamId, subscriptionId, p, per);
    }
  }

  /** Every event of a visited partition is read. */
  lemma {:induction false} ReadAllComplete(t: Table, f: Faults, streamId: string, subscriptionId: string,
                                           p: nat, count: u32, per: u32, q: u32)
    requires p <= q < count
    ensures forall e :: e in PartitionEvents(t, f, streamId, subscriptionId, q, per) ==>
      e in ReadAll(t, f, streamId, subscriptionId, p, count, per)
    decreases count - p
  {
    var here := PartitionEvents(t, f, streamId, subscriptionId, p, per);
    var rest := ReadAll(t, f, streamId, subscriptionId, p + 1, count, per);
    assert ReadAll(t, f, streamId, subscriptionId, p, count, per) == here + rest;
    if p == q {
      InConcat(here, rest);
    } else {
      ReadAllComplete(t, f, streamId, subscriptionId, p + 1, count, per, q);
      InConcat(here, rest);
    }
  }

  lemma InConcat<T>(a: seq<T>, b: seq<T>)
    ensures forall x :: x in a ==> x in a + b
    ensures forall x :: x in b ==> x in a + b
  {
  }

  predicate Distinct<T(==)>(xs: seq<T>) {
    forall i, j :: 0 <= i < j < |xs| ==> xs[i] != xs[j]
  }

  lemma {:induction false} DistinctOnce<T>(xs: seq<T>, x: T)
    requires Distinct(xs)
    ensures multiset(xs)[x] <= 1
    decreases |xs|
  {
    if |xs| > 0 {
      assert xs == [xs[0]] + xs[1..];
      DistinctOnce(xs[1..], x);
      if x == xs[0] {
        assert x !in xs[1..];
      }
    }
  }

  lemma DistinctConcat<T>(a: seq<T>, b: seq<T>)
    requires Distinct(a) && Distinct(b)
    requires forall x, y :: x in a && y in b ==> x != y
    ensures Distinct(a + b)
  {
    var r := a + b;
    forall i, j | 0 <= i < j < |r|
      ensures r[i] != r[j]
    {
      if j < |a| {
        assert r[i] == a[i] && r[j] == a[j];
      } else if i < |a| {
        assert r[i] == a[i] && a[i] in a;
        assert r[j] == b[j - |a|] && b[j - |a|] in b;
      } else {
        assert r[i] == b[i - |a|] && r[j] == b[j - |a|];
      }
    }
  }

  /** Drawing from a sequence without repeats gives a sequence without repeats. */
  lemma SubMultisetDistinct<T>(xs: seq<T>, ys: seq<T>)
    requires multiset(xs) <= multiset(ys) && Distinct(ys)
    ensures Distinct(xs)
  {
    forall i, j | 0 <= i < j < |xs|
      ensures xs[i] != xs[j]
    {
      if xs[i] == xs[j] {
        CountedTwice(xs, i, j);
        DistinctOnce(ys, xs[i]);
        assert false;
      }
    }
  }

  /** An element at two positions occurs twice. */
  lemma CountedTwice<T>(xs: seq<T>, i: nat, j: nat)
    requires i < j < |xs| && xs[i] == xs[j]
    ensures multiset(xs)[xs[i]] >= 2
  {
    assert xs == xs[..j] + xs[j..];
    assert xs[..j][i] == xs[i];
    assert xs[j..][0] == xs[i];
    assert xs[i] in multiset(xs[..j]) && xs[i] in multiset(xs[j..]);
  }

  /** No event is read twice: the partitions are disjoint and each is read in strictly
      ascending order. */
  lemma {:induction false} ReadAllDistinct(t: Table, f: Faults, streamId: string, subscriptionId: string,
                                           p: nat, count: u32, per: u32)
    requires WellFormed(t)
    ensures Distinct(ReadAll(t, f, streamId, subscriptionId, p, count, per))
    decreases count - p
  {
    if p < count {
      var batch := PartitionEvents(t, f, streamId, subscriptionId, p, per);
      var rest := ReadAll(t, f, streamId, subscriptionId, p + 1, count, per);
      ReadAllDistinct(t, f, streamId, subscriptionId, p + 1, count, per);
      ReadAllSound(t, f, streamId, subscriptionId, p + 1, count, per);
      PartitionEventsSound(t, f, streamId, subscriptionId, p, per);
      assert Distinct(batch) by {
        assert forall i, j :: 0 <= i < j < |batch| ==> batch[i].sequence < batch[j].sequence;
      }
      assert forall x, y :: x in batch && y in rest ==> x.partition < y.partition;
      DistinctConcat(batch, rest);
    }
  }

  // ---------------------------------------------------------------------------
  // What a poll returns
  // ---------------------------------------------------------------------------

  /** Cutting a timestamp-sorted permutation of `read` to `limit`: the result is sorted,
      drawn from `read`, `limit` long unless `read` is shorter, and never later than an
      element left out. */
  lemma TakeSorted(sorted: seq<Event>, read: seq<Event>, limit: nat)
    requires SortedByTime(sorted) && multiset(sorted) == multiset(read)
    ensures var events := Take(sorted, limit);
      && SortedByTime(events)
      && multiset(events) <= multiset(read)
      && |events| == (if |read| < limit then |read| else limit)
      && (forall i, d :: 0 <= i < |events| && d in multiset(read) - multiset(events) ==>
            events[i].timestamp <= d.timestamp)
  {
    var events := Take(sorted, limit);
    var n := |events|;
    SortedPrefix(sorted, n);
    MultisetSplit(sorted, n);
    forall i, d | 0 <= i < n && d in multiset(read) - multiset(events)
      ensures events[i].timestamp <= d.timestamp
    {
      SortedLater(sorted, n, i, d);
    }
  }

  lemma SortedPrefix(s: seq<Event>, n: nat)
    requires SortedByTime(s) && n <= |s|
    ensures SortedByTime(s[..n])
  {
  }

  lemma MultisetSplit<T>(xs: seq<T>, n: nat)
    requires n <= |xs|
    ensures multiset(xs) == multiset(xs[..n]) + multiset(xs[n..])
  {
    assert xs == xs[..n] + xs[n..];
  }

  /** In a sorted sequence, an element past position `n` is not earlier than one before it. */
  lemma SortedLater(s: seq<Event>, n: nat, i: nat, d: Event)
    requires SortedByTime(s) && i < n <= |s| && d in s[n..]
    ensures s[i].timestamp <= d.timestamp
  {
    var j :| 0 <= j < |s[n..]| && s[n..][j] == d;
    assert s[n + j] == d;
  }

  /** Cutting a permutation of distinct events shorter drops an event that was read. */
  lemma TakeDrops(sorted: seq<Event>, read: seq<Event>, limit: nat)
    requires multiset(sorted) == multiset(read)
    requires Distinct(read) && limit < |sorted|
    ensures sorted[limit] in read && sorted[limit] !in Take(sorted, limit)
  {
    var events := Take(sorted, limit);
    var d := sorted[limit];
    var rest := sorted[limit..];
    assert d in multiset(sorted);
    DistinctOnce(read, d);
    assert sorted == events + rest;
    assert multiset(sorted) == multiset(events) + multiset(rest);
    assert d == rest[0];
  }

  /** The events returned are sorted by timestamp, come from the events read, number
      `limit` unless fewer were read, and are never later than an event left out. */
  lemma PollBatchReturns(t: Table, f: Faults, streamId: string, subscriptionId: string, limit: u32, count: u32,
                         rule: CursorRule)
    requires count > 0
    ensures var b := PollBatch(t, f, streamId, subscriptionId, limit, count, rule);
      && SortedByTime(b.events)
      && multiset(b.events) <= multiset(b.read)
      && |b.events| == (if |b.read| < limit then |b.read| else limit)
      && (forall i, d :: 0 <= i < |b.events| && d in multiset(b.read) - multiset(b.events) ==>
            b.events[i].timestamp <= d.timestamp)
  {
    var read := PollBatch(t, f, streamId, subscriptionId, limit, count, rule).read;
    SortSorted(read);
    SortPermutes(read);
    TakeSorted(SortByTime(read), read, limit);
  }

  /** Every event returned is a stored event of the stream, from one of its partitions,
      above the offset committed for that partition, and none is returned twice. */
  lemma PollBatchSound(t: Table, f: Faults, streamId: string, subscriptionId: string, limit: u32, count: u32,
                       rule: CursorRule)
    requires WellFormed(t) && count > 0
    ensures forall e :: e in PollBatch(t, f, streamId, subscriptionId, limit, count, rule).events ==>
      && e.streamId == streamId && e.partition < count
      && StartOffset(t, f, streamId, subscriptionId, e.partition) < e.sequence
      && EventKey(streamId, e.partition, e.sequence) in t
      && t[EventKey(streamId, e.partition, e.sequence)] == EventItem(e)
    ensures Distinct(PollBatch(t, f, streamId, subscriptionId, limit, count, rule).events)
  {
    var b := PollBatch(t, f, streamId, subscriptionId, limit, count, rule);
    PollBatchReturns(t, f, streamId, subscriptionId, limit, count, rule);
    PollBatchDistinct(t, f, streamId, subscriptionId, limit, count, rule);
    ReadAllSound(t, f, streamId, subscriptionId, 0, count, PerPartitionLimit(limit, count));
    forall e | e in b.events
      ensures e.streamId == streamId && e.partition < count
      ensures StartOffset(t, f, streamId, subscriptionId, e.partition) < e.sequence
      ensures EventKey(streamId, e.partition, e.sequence) in t
      ensures t[EventKey(streamId, e.partition, e.sequence)] == EventItem(e)
    {
      assert e in multiset(b.read);
      var es := PartitionEvents(t, f, streamId, subscriptionId, e.partition, PerPartitionLimit(limit, count));
      PartitionEventsSound(t, f, streamId, subscriptionId, e.partition, PerPartitionLimit(limit, count));
      var i :| 0 <= i < |es| && es[i] == e;
    }
  }

  /** No event is returned twice. */
  lemma PollBatchDistinct(t: Table, f: Faults, streamId: string, subscriptionId: string, limit: u32, count: u32,
                          rule: CursorRule)
    requires WellFormed(t) && count > 0
    ensures Distinct(PollBatch(t, f, streamId, subscriptionId, limit, count, rule).events)
  {
    var b := PollBatch(t, f, streamId, subscriptionId, limit, count, rule);
    PollBatchReturns(t, f, streamId, subscriptionId, limit, count, rule);
    ReadAllDistinct(t, f, streamId, subscriptionId, 0, count, PerPartitionLimit(limit, count));
    SubMultisetDistinct(b.events, b.read);
  }

  // ---------------------------------------------------------------------------
  // The cursor
  // ---------------------------------------------------------------------------

  lemma {:induction false} DeliveredFacts(batch: seq<Event>, returned: seq<Event>, from: u64)
    requires Ascends(batch)
    requires forall i :: 0 <= i < |batch| ==> from < batch[i].sequence
    ensures from <= Delivered(batch, returned, from)
    ensures forall e :: e in batch && e !in returned ==> Delivered(batch, returned, from) < e.sequence
    ensures (forall e :: e in batch ==> e in returned) ==>
      Delivered(batch, returned, from) == if |batch| == 0 then from else batch[|batch| - 1].sequence
    decreases |batch|
  {
    if |batch| > 0 && batch[0] in returned {
      var tail := batch[1..];
      assert forall i :: 0 <= i < |tail| ==> tail[i] == batch[i + 1];
      DeliveredFacts(tail, returned, batch[0].sequence);
      assert forall e :: e in batch <==> e == batch[0] || e in tail;
      if |tail| > 0 {
        assert tail[|tail| - 1] == batch[|batch| - 1];
      }
    } else if |batch| > 0 {
      assert forall e :: e in batch ==> exists i :: 0 <= i < |batch| && batch[i] == e;
    }
  }

  /** Under either rule, the cursor has one entry per partition, in partition order, none
      below the offset the poll started that partition from. */
  lemma PollCursorShape(t: Table, f: Faults, streamId: string, subscriptionId: string, limit: u32, count: u32,
                        rule: CursorRule)
    requires WellFormed(t) && count > 0
    ensures var c := PollBatch(t, f, streamId, subscriptionId, limit, count, rule).cursor;
      && |c.offsets| == count
      && forall i :: 0 <= i < count ==>
           c.offsets[i].partition == i && StartOffset(t, f, streamId, subscriptionId, i) <= c.offsets[i].offset
  {
    var b := PollBatch(t, f, streamId, subscriptionId, limit, count, rule);
    var per := PerPartitionLimit(limit, count);
    forall i | 0 <= i < count
      ensures StartOffset(t, f, streamId, subscriptionId, i) <= b.cursor.offsets[i].offset
    {
      PartitionEventsSound(t, f, streamId, subscriptionId, i, per);
      var es := PartitionEvents(t, f, streamId, subscriptionId, i, per);
      if rule == ReturnedOnly {
        DeliveredFacts(es, b.events, StartOffset(t, f, streamId, subscriptionId, i));
      }
    }
  }

  /** As written, the cursor moves past every event read, including those the limit cut
      off: when more events are read than `limit`, some event is neither returned nor left
      above the cursor, so committing the cursor skips it. Two partitions with one new
      event each, polled with `limit` 1, are such a case. */
  lemma TruncatedEventsSkipped(t: Table, f: Faults, streamId: string, subscriptionId: string, limit: u32, count: u32)
    requires WellFormed(t) && count > 0
    ensures var b := PollBatch(t, f, streamId, subscriptionId, limit, count, AllRead);
      && (forall e :: e in b.read ==> e.partition < count && e.sequence <= b.cursor.offsets[e.partition].offset)
      && (|b.read| > limit ==>
            exists d :: d in b.read && d !in b.events && d.partition < count
                        && d.sequence <= b.cursor.offsets[d.partition].offset)
  {
    var b := PollBatch(t, f, streamId, subscriptionId, limit, count, AllRead);
    var per := PerPartitionLimit(limit, count);
    ReadAllSound(t, f, streamId, subscriptionId, 0, count, per);
    forall e | e in b.read
      ensures e.partition < count && e.sequence <= b.cursor.offsets[e.partition].offset
    {
      CursorEntryCovers(t, f, streamId, subscriptionId, e.partition, per);
    }
    if |b.read| > limit {
      ReadAllDistinct(t, f, streamId, subscriptionId, 0, count, per);
      SortPermutes(b.read);
      TakeDrops(SortByTime(b.read), b.read, limit);
      var d := SortByTime(b.read)[limit];
      assert d in b.read;
    }
  }

  /** Corrected: the cursor stays below every event that was read but not returned, so
      the next poll from a committed cursor reads it again; equivalently, every event read
      at or below its partition's entry was returned. */
  lemma UndeliveredEventsKept(t: Table, f: Faults, streamId: string, subscriptionId: string, limit: u32, count: u32)
    requires WellFormed(t) && count > 0
    ensures var b := PollBatch(t, f, streamId, subscriptionId, limit, count, ReturnedOnly);
      forall d :: d in b.read && d !in b.events ==>
        d.partition < count && b.cursor.offsets[d.partition].offset < d.sequence
  {
    var b := PollBatch(t, f, streamId, subscriptionId, limit, count, ReturnedOnly);
    var per := PerPartitionLimit(limit, count);
    ReadAllSound(t, f, streamId, subscriptionId, 0, count, per);
    forall d | d in b.read && d !in b.events
      ensures d.partition < count && b.cursor.offsets[d.partition].offset < d.sequence
    {
      PartitionEventsSound(t, f, streamId, subscriptionId, d.partition, per);
      DeliveredFacts(PartitionEvents(t, f, streamId, subscriptionId, d.partition, per), b.events,
                     StartOffset(t, f, streamId, subscriptionId, d.partition));
    }
  }

  /** When nothing is cut off the two rules agree: the corrected cursor differs from the
      written one only on polls that drop events. */
  lemma NothingDroppedSameCursor(t: Table, f: Faults, streamId: string, subscriptionId: string, limit: u32, count: u32)
    requires WellFormed(t) && count > 0
    requires |PollBatch(t, f, streamId, subscriptionId, limit, count, AllRead).read| <= limit
    ensures PollBatch(t, f, streamId, subscriptionId, limit, count, ReturnedOnly)
      == PollBatch(t, f, streamId, subscriptionId, limit, count, AllRead)
  {
    var a := PollBatch(t, f, streamId, subscriptionId, limit, count, AllRead);
    var b := PollBatch(t, f, streamId, subscriptionId, limit, count, ReturnedOnly);
    var per := PerPartitionLimit(limit, count);
    var sorted := SortByTime(a.read);
    SortPermutes(a.read);
    TakeAll(sorted, limit);
    SameMembers(sorted, a.read);
    forall i | 0 <= i < count
      ensures b.cursor.offsets[i] == a.cursor.offsets[i]
    {
      ReadAllComplete(t, f, streamId, subscriptionId, 0, count, per, i);
      EntryAgrees(t, f, streamId, subscriptionId, i, per, a.events);
    }
    Pointwise(b.cursor.offsets, a.cursor.offsets);
  }

  lemma TakeAll<T>(xs: seq<T>, n: nat)
    requires |xs| <= n
    ensures Take(xs, n) == xs
  {
  }

  lemma SameMembers<T>(xs: seq<T>, ys: seq<T>)
    requires multiset(xs) == multiset(ys)
    ensures forall y :: y in ys ==> y in xs
  {
    forall y | y in ys
      ensures y in xs
    {
      assert y in multiset(ys);
    }
  }

  lemma Pointwise<T>(xs: seq<T>, ys: seq<T>)
    requires |xs| == |ys|
    requires forall i :: 0 <= i < |xs| ==> xs[i] == ys[i]
    ensures xs == ys
  {
  }

  /** A partition whose events were all returned gets the same entry under both rules. */
  lemma EntryAgrees(t: Table, f: Faults, streamId: string, subscriptionId: string, partition: u32, per: u32,
                    returned: seq<Event>)
    requires WellFormed(t)
    requires forall e :: e in PartitionEvents(t, f, streamId, subscriptionId, partition, per) ==> e in returned
    ensures Entry(ReturnedOnly, t, f, streamId, subscriptionId, partition, per, returned)
      == Entry(AllRead, t, f, streamId, subscriptionId, partition, per, returned)
  {
    PartitionEventsSound(t, f, streamId, subscriptionId, partition, per);
    DeliveredFacts(PartitionEvents(t, f, streamId, subscriptionId, partition, per), returned,
                   StartOffset(t, f, streamId, subscriptionId, partition));
  }

  // ---------------------------------------------------------------------------
  // Commit
  // ---------------------------------------------------------------------------

  /** A commit with no failing put completes. */
  lemma {:induction false} CommitOffsetsDone(t: Table, f: Faults, streamId: string, subscriptionId: string,
                                             offsets: seq<PartitionOffset>, now: int)
    requires forall i :: 0 <= i < |offsets| ==> Put(OffsetKey(streamId, subscriptionId, offsets[i].partition)) !in f
    ensures CommitOffsets(t, f, streamId, subscriptionId, offsets, now).outcome.Done?
    decreases |offsets|
  {
    if |offsets| > 0 {
      var s := SetOffset(t, f, streamId, subscriptionId, offsets[0].partition, offsets[0].offset, now);
      assert forall i :: 0 <= i < |offsets[1..]| ==> offsets[1..][i] == offsets[i + 1];
      CommitOffsetsDone(s.table, f, streamId, subscriptionId, offsets[1..], now);
    }
  }

  /** Committing a cursor whose entries are partitions 0, 1, ... in order stores each
      entry's offset and reports success. */
  lemma CommitCursorStores(t: Table, g: Faults, streamId: string, subscriptionId: string, c: CursorState,
                           text: string, parseRequest: string -> Option<CommitRequest>, now: int, partition: nat)
    requires parseRequest(text) == Some(CommitRequest(EncodeCursor(c)))
    requires forall p: nat :: Put(OffsetKey(streamId, subscriptionId, p)) !in g
    requires forall i :: 0 <= i < |c.offsets| ==> c.offsets[i].partition == i
    requires partition < |c.offsets|
    ensures var h := HandleCommit(t, g, streamId, subscriptionId, Utf8.Encode(text), parseRequest, ParseCursorJson, now);
      && h.reply == Respond(200, SuccessBody(true))
      && GetOffset(h.table, map[], streamId, subscriptionId, partition) == Ok(c.offsets[partition].offset)
  {
    Utf8.DecodeEncode(text);
    StrictCursorRoundTrip(c);
    CommitOffsetsDone(t, g, streamId, subscriptionId, c.offsets, now);
    CommitThenGet(t, g, streamId, subscriptionId, c.offsets, now, partition);
    var last := LastOffset(c.offsets, partition);
    assert c.offsets[partition].partition == partition;
    var j :| 0 <= j < |c.offsets| && c.offsets[j] == PartitionOffset(partition, last.value);
    assert c.offsets[j].partition == j;
  }

  /** Poll then commit: committing the cursor a poll returned stores, for every partition,
      exactly the cursor's entry, and reports success. */
  lemma PollThenCommit(t: Table, f: Faults, streamId: string, subscriptionId: string, query: map<string, string>,
                       rule: CursorRule, text: string, parseRequest: string -> Option<CommitRequest>,
                       g: Faults, now: int, partition: u32)
    requires HandlePoll(t, f, streamId, subscriptionId, query, rule).Respond?
    requires HandlePoll(t, f, streamId, subscriptionId, query, rule).status == 200
    requires parseRequest(text)
      == Some(CommitRequest(HandlePoll(t, f, streamId, subscriptionId, query, rule).body.poll.cursor))
    requires forall p: nat :: Put(OffsetKey(streamId, subscriptionId, p)) !in g
    requires partition < GetStream(t, f, streamId).value.partitionCount
    ensures var h := HandleCommit(t, g, streamId, subscriptionId, Utf8.Encode(text), parseRequest, ParseCursorJson, now);
      var b := PollBatch(t, f, streamId, subscriptionId, QueryLimit(query),
                         GetStream(t, f, streamId).value.partitionCount, rule);
      && h.reply == Respond(200, SuccessBody(true))
      && GetOffset(h.table, map[], streamId, subscriptionId, partition) == Ok(b.cursor.offsets[partition].offset)
  {
    var count := GetStream(t, f, streamId).value.partitionCount;
    var b := PollBatch(t, f, streamId, subscriptionId, QueryLimit(query), count, rule);
    CommitCursorStores(t, g, streamId, subscriptionId, b.cursor, text, parseRequest, now, partition);
  }
}
