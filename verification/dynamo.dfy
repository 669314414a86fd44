/** The store operations of the shared client, one transition of the table each. Every
    store call the code makes is checked against the fault map in the order the code
    makes it; writes made before a failing call remain in the table. */
module Dynamo {
  import opened Wrappers
  import opened Strings
  import opened Numbers
  import opened Keys
  import opened Models
  import opened Errors
  import opened Store
  import Partitioner

  /** DynamoDB's reply to an update that adds to an attribute the item does not have
      (also what it does when there is no item at all). */
  const MISSING_ATTRIBUTE := "ValidationException: The provided expression refers to an attribute that does not exist in the item"
  /** DynamoDB's reply to a query whose `Limit` is below 1. */
  const INVALID_LIMIT := "ValidationException: Limit must be greater than or equal to 1"
  /** Rust's message for a `u64` parse of a number that is too large. */
  const NUMBER_TOO_LARGE := "number too large to fit in target type"

  // ---------------------------------------------------------------------------
  // Streams
  // ---------------------------------------------------------------------------

  function CounterKeys(streamId: string, from: nat, to: nat): set<Key> {
    set p: nat | from <= p < to :: CounterKey(streamId, p)
  }

  function ZeroCounters(streamId: string, from: nat, to: nat): map<Key, Item> {
    map k | k in CounterKeys(streamId, from, to) :: CounterItem(0)
  }

  /** The first partition from `p` on whose counter put fails, or `count` if none does. */
  function FirstCounterPutFault(f: Faults, streamId: string, p: nat, count: nat): (q: nat)
    ensures p <= q <= count || (q == p && p > count)
    ensures forall i: nat :: p <= i < q ==> Put(CounterKey(streamId, i)) !in f
    ensures q < count ==> Put(CounterKey(streamId, q)) in f
    decreases count - p
  {
    if p >= count || Put(CounterKey(streamId, p)) in f then p
    else FirstCounterPutFault(f, streamId, p + 1, count)
  }

  lemma ZeroCountersStep(streamId: string, p: nat, to: nat)
    requires p < to
    ensures ZeroCounters(streamId, p, to) == ZeroCounters(streamId, p + 1, to)[CounterKey(streamId, p) := CounterItem(0)]
  {
    assert CounterKeys(streamId, p, to) == CounterKeys(streamId, p + 1, to) + {CounterKey(streamId, p)};
  }

  lemma ZeroCountersEmpty(streamId: string, p: nat, to: nat)
    requires to <= p
    ensures ZeroCounters(streamId, p, to) == map[]
  {
    assert CounterKeys(streamId, p, to) == {};
  }

  /** Writing a key and then merging a map that agrees on it is merging the updated map. */
  lemma UpdateThenMerge(t: Table, k: Key, v: Item, m: map<Key, Item>)
    requires k in m ==> m[k] == v
    ensures t[k := v] + m == t + m[k := v]
  {
  }

  /** `init_partition_counter` for partitions `p` to `count - 1` in turn: each puts a
      counter holding 0, and the first failing put ends the loop with that error. */
  function InitCounters(t: Table, f: Faults, streamId: string, p: nat, count: nat): (r: Step<()>)
    ensures var q := FirstCounterPutFault(f, streamId, p, count);
      && r.table == t + ZeroCounters(streamId, p, q)
      && (r.outcome.Done? <==> q >= count)
      && (!r.outcome.Done? ==> r.outcome == Failed(Database(f[Put(CounterKey(streamId, q))])))
    decreases count - p
  {
    if p >= count then
      ZeroCountersEmpty(streamId, p, p);
      Step(t, Done(()))
    else
      var k := CounterKey(streamId, p);
      if Put(k) in f then
        ZeroCountersEmpty(streamId, p, p);
        Step(t, Failed(Database(f[Put(k)])))
      else
        var r := InitCounters(t[k := CounterItem(0)], f, streamId, p + 1, count);
        var q := FirstCounterPutFault(f, streamId, p, count);
        ZeroCountersStep(streamId, p, q);
        UpdateThenMerge(t, k, CounterItem(0), ZeroCounters(streamId, p + 1, q));
        r
  }

  /** `create_stream`: a put of the metadata guarded by the item's absence, then one
      counter at 0 for each partition. A count of zero is accepted. */
  function CreateStream(t: Table, f: Faults, req: CreateStreamRequest, now: int): (r: Step<Stream>)
    ensures !r.outcome.Panicked?
    ensures MetaKey(req.streamId) in t && Put(MetaKey(req.streamId)) !in f ==>
      r == Step(t, Failed(StreamAlreadyExists(req.streamId)))
    ensures r.outcome.Done? <==>
      MetaKey(req.streamId) !in t && Put(MetaKey(req.streamId)) !in f
      && FirstCounterPutFault(f, req.streamId, 0, req.partitionCount) == req.partitionCount
    ensures r.outcome.Done? ==>
      r.outcome.value == NewStream(req.streamId, req.partitionCount, req.retentionHours, now)
      && r.table == t[MetaKey(req.streamId) := StreamItem(r.outcome.value)] + ZeroCounters(req.streamId, 0, req.partitionCount)
  {
    var stream := NewStream(req.streamId, req.partitionCount, req.retentionHours, now);
    var k := MetaKey(req.streamId);
    if Put(k) in f then
      Step(t, Failed(ConditionalPutError(f[Put(k)], StreamAlreadyExists(req.streamId))))
    else if k in t then
      // the store's message names the failed condition, which maps to the conflict
      Step(t, Failed(StreamAlreadyExists(req.streamId)))
    else
      var r := InitCounters(t[k := StreamItem(stream)], f, req.streamId, 0, req.partitionCount);
      Step(r.table, if r.outcome.Done? then Done(stream) else Failed(r.outcome.error))
  }

  /** `get_stream`: the metadata item of a stream. */
  function GetStream(t: Table, f: Faults, streamId: string): (r: Result<Stream, Error>)
    ensures Get(MetaKey(streamId)) in f ==> r == Err(Database(f[Get(MetaKey(streamId))]))
    ensures Get(MetaKey(streamId)) !in f && MetaKey(streamId) !in t ==> r == Err(StreamNotFound(streamId))
    ensures r.Ok? <==> Get(MetaKey(streamId)) !in f && MetaKey(streamId) in t && t[MetaKey(streamId)].StreamItem?
    ensures r.Ok? ==> t[MetaKey(streamId)] == StreamItem(r.value)
  {
    var k := MetaKey(streamId);
    if Get(k) in f then Err(Database(f[Get(k)]))
    else if k !in t then Err(StreamNotFound(streamId))
    else if t[k].StreamItem? then Ok(t[k].stream)
    else Err(DynamoSerialization("invalid type: expected struct Stream"))
  }

  /** `list_streams`: every metadata item under a `STREAM#` key, in no particular order;
      items that do not convert to a stream are dropped. */
  function ListStreams(t: Table, f: Faults): (r: Result<set<Stream>, Error>)
    ensures Scan in f ==> r == Err(Database(f[Scan]))
    ensures Scan !in f ==> r.Ok?
    ensures r.Ok? ==> forall s :: s in r.value <==>
      exists k :: k in t && StartsWith(k.pk, "STREAM#") && k.sk == META && t[k] == StreamItem(s)
  {
    if Scan in f then Err(Database(f[Scan]))
    else Ok(set k | k in t && StartsWith(k.pk, "STREAM#") && k.sk == META && t[k].StreamItem? :: t[k].stream)
  }

  /** The first partition from `p` on whose counter delete fails, or `count` if none does. */
  function FirstCounterDeleteFault(f: Faults, streamId: string, p: nat, count: nat): (q: nat)
    ensures p <= q <= count || (q == p && p > count)
    ensures forall i: nat :: p <= i < q ==> Delete(CounterKey(streamId, i)) !in f
    ensures q < count ==> Delete(CounterKey(streamId, q)) in f
    decreases count - p
  {
    if p >= count || Delete(CounterKey(streamId, p)) in f then p
    else FirstCounterDeleteFault(f, streamId, p + 1, count)
  }

  /** The counter deletes of `delete_stream` for partitions `p` to `count - 1`; the first
      failing delete ends the loop with that error. */
  function DeleteCounters(t: Table, f: Faults, streamId: string, p: nat, count: nat): (r: Step<()>)
    ensures var q := FirstCounterDeleteFault(f, streamId, p, count);
      && r.table == t - CounterKeys(streamId, p, q)
      && (r.outcome.Done? <==> q >= count)
      && (!r.outcome.Done? ==> r.outcome == Failed(Database(f[Delete(CounterKey(streamId, q))])))
    decreases count - p
  {
    if p >= count then
      assert CounterKeys(streamId, p, p) == {};
      Step(t, Done(()))
    else
      var k := CounterKey(streamId, p);
      if Delete(k) in f then
        assert CounterKeys(streamId, p, p) == {};
        Step(t, Failed(Database(f[Delete(k)])))
      else
        var r := DeleteCounters(t - {k}, f, streamId, p + 1, count);
        var q := FirstCounterDeleteFault(f, streamId, p, count);
        assert CounterKeys(streamId, p, q) == CounterKeys(streamId, p + 1, q) + {k};
        r
  }

  /** `delete_stream`: looks the stream up, deletes its metadata, then the counters of
      its partitions. Events, subscriptions, offsets and compacted rows stay. */
  function DeleteStream(t: Table, f: Faults, streamId: string): (r: Step<()>)
    ensures !r.outcome.Panicked?
    ensures GetStream(t, f, streamId).Err? ==> r == Step(t, Failed(GetStream(t, f, streamId).error))
    ensures r.outcome.Done? <==>
      GetStream(t, f, streamId).Ok? && Delete(MetaKey(streamId)) !in f
      && FirstCounterDeleteFault(f, streamId, 0, GetStream(t, f, streamId).value.partitionCount)
         == GetStream(t, f, streamId).value.partitionCount
    ensures r.outcome.Done? ==>
      r.table == t - {MetaKey(streamId)} - CounterKeys(streamId, 0, GetStream(t, f, streamId).value.partitionCount)
    ensures forall k :: k in t && k !in r.table ==> k.sk == META || k.sk == COUNTER
    ensures forall k :: k in r.table ==> k in t && r.table[k] == t[k]
  {
    match GetStream(t, f, streamId)
    case Err(e) => Step(t, Failed(e))
    case Ok(stream) =>
      var k := MetaKey(streamId);
      if Delete(k) in f then Step(t, Failed(Database(f[Delete(k)])))
      else DeleteCounters(t - {k}, f, streamId, 0, stream.partitionCount)
  }

  // ---------------------------------------------------------------------------
  // Events
  // ---------------------------------------------------------------------------

  /** `increment_sequence`: an update adding 1 to the counter, returning the new value
      read back as a `u64`. The update fails when there is no counter; the read-back
      fails, after the update, when the value no longer fits. */
  function IncrementSequence(t: Table, f: Faults, streamId: string, partition: nat): (r: Step<u64>)
    ensures !r.outcome.Panicked?
    ensures var k := CounterKey(streamId, partition);
      r.outcome.Done? <==> Update(k) !in f && k in t && t[k].CounterItem? && t[k].sequence < U64_MAX
    ensures r.outcome.Done? ==> r.outcome.value == CounterValue(t, streamId, partition) + 1
    ensures var k := CounterKey(streamId, partition);
      r.table == t || (k in t && r.table == t[k := CounterItem(CounterValue(t, streamId, partition) + 1)])
    ensures r.table != t ==> r.outcome.Done? || r.outcome == Failed(Internal(NUMBER_TOO_LARGE))
  {
    var k := CounterKey(streamId, partition);
    if Update(k) in f then Step(t, Failed(Database(f[Update(k)])))
    else if k !in t || !t[k].CounterItem? then Step(t, Failed(Database(MISSING_ATTRIBUTE)))
    else
      var n := t[k].sequence + 1;
      var t' := t[k := CounterItem(n)];
      if n <= U64_MAX then Step(t', Done(n)) else Step(t', Failed(Internal(NUMBER_TOO_LARGE)))
  }

  /** The reference to event `e` published to `partition` with `sequence`. */
  function StoredEvent(streamId: string, partition: u32, sequence: u64, e: PublishEvent, now: int): Event {
    Event(streamId, partition, sequence, e.key, e.eventType, e.data, now)
  }

  /** The loop of `publish_events` over `events`: for each, its partition, a fresh
      sequence from the counter, then a put of the event under its sequence key. The
      first failure ends the loop; an increment whose put then fails leaves its
      sequence unused. */
  function PublishEach(t: Table, f: Faults, sha256: seq<byte> -> Partitioner.Digest, part: Partitioner.Partitioner,
                       streamId: string, events: seq<PublishEvent>, now: int): (r: Step<seq<PublishedEvent>>)
    requires part.partitionCount > 0
    ensures !r.outcome.Panicked?
    ensures r.outcome.Done? ==> |r.outcome.value| == |events|
    ensures r.outcome.Done? ==> forall i :: 0 <= i < |events| ==>
      r.outcome.value[i] == PublishedEvent(streamId, Partitioner.Partition(part, sha256, events[i].key),
                                           r.outcome.value[i].sequence, events[i].key, now)
    decreases |events|
  {
    if |events| == 0 then Step(t, Done([]))
    else
      var e := events[0];
      var partition := Partitioner.Partition(part, sha256, e.key);
      var inc := IncrementSequence(t, f, streamId, partition);
      if !inc.outcome.Done? then Step(inc.table, Failed(inc.outcome.error))
      else
        var sequence := inc.outcome.value;
        var k := EventKey(streamId, partition, sequence);
        if Put(k) in f then Step(inc.table, Failed(Database(f[Put(k)])))
        else
          var t' := inc.table[k := EventItem(StoredEvent(streamId, partition, sequence, e, now))];
          var rest := PublishEach(t', f, sha256, part, streamId, events[1..], now);
          if rest.outcome.Done? then
            Step(rest.table, Done([PublishedEvent(streamId, partition, sequence, e.key, now)] + rest.outcome.value))
          else
            rest
  }

  /** `publish_events`: the stream must exist; its partition count builds a partitioner
      (which panics on 0); all events share one timestamp. */
  function PublishEvents(t: Table, f: Faults, sha256: seq<byte> -> Partitioner.Digest, streamId: string,
                         events: seq<PublishEvent>, now: int): (r: Step<seq<PublishedEvent>>)
    ensures GetStream(t, f, streamId).Err? ==> r == Step(t, Failed(GetStream(t, f, streamId).error))
    ensures r.outcome.Panicked? <==>
      GetStream(t, f, streamId).Ok? && GetStream(t, f, streamId).value.partitionCount == 0
    ensures r.outcome.Panicked? ==> r == Step(t, Panicked(Partitioner.ZERO_PARTITIONS_PANIC))
    ensures r.outcome.Done? ==> |r.outcome.value| == |events|
  {
    match GetStream(t, f, streamId)
    case Err(e) => Step(t, Failed(e))
    case Ok(stream) =>
      match Partitioner.New(stream.partitionCount)
      case Err(message) => Step(t, Panicked(message))
      case Ok(part) => PublishEach(t, f, sha256, part, streamId, events, now)
  }

  /** The sort keys under `pk` that the range condition `SK > SEQ#{from:020}` selects. */
  function KeysAbove(t: Table, pk: string, from: u64): set<string> {
    set k: Key | k in t && k.pk == pk && Below(SeqSk(from), k.sk) :: k.sk
  }

  /** The events held under `pk` at the sort keys `sks`, in that order; an item of any
      other kind is dropped, as a failing `from_item` drops it. */
  function EventsAt(t: Table, pk: string, sks: seq<string>): (r: seq<Event>)
    ensures |r| <= |sks|
  {
    if |sks| == 0 then []
    else
      var k := Key(pk, sks[0]);
      (if k in t && t[k].EventItem? then [t[k].event] else []) + EventsAt(t, pk, sks[1..])
  }

  /** `read_events`: a query for the items of the partition's PK with a sort key above
      the event key of `from`, in ascending sort-key order, with `limit as i32` as the
      page size (which the store rejects below 1); the items that are events. */
  function ReadEvents(t: Table, f: Faults, streamId: string, partition: u32, from: u64, limit: u32)
    : (r: Result<seq<Event>, Error>)
    ensures var pk := PartitionPk(streamId, partition);
      Query(pk) in f ==> r == Err(Database(f[Query(pk)]))
    ensures r.Ok? <==> Query(PartitionPk(streamId, partition)) !in f && 1 <= limit <= I32_MAX
    ensures r.Err? ==> r.error.Database?
    ensures r.Ok? ==> |r.value| <= limit
  {
    var pk := PartitionPk(streamId, partition);
    if Query(pk) in f then Err(Database(f[Query(pk)]))
    else if AsI32(limit) < 1 then Err(Database(INVALID_LIMIT))
    else Ok(EventsAt(t, pk, Take(Ascending(KeysAbove(t, pk, from)), AsI32(limit))))
  }

  // ---------------------------------------------------------------------------
  // Subscriptions
  // ---------------------------------------------------------------------------

  /** `get_latest_offset`: the partition's counter read back as a `u64`, 0 when the
      partition has no counter item. */
  function GetLatestOffset(t: Table, f: Faults, streamId: string, partition: nat): (r: Result<u64, Error>)
    ensures var k := CounterKey(streamId, partition);
      Get(k) in f ==> r == Err(Database(f[Get(k)]))
    ensures var k := CounterKey(streamId, partition);
      Get(k) !in f && k !in t ==> r == Ok(0)
    ensures var k := CounterKey(streamId, partition);
      r.Ok? <==> Get(k) !in f && (k in t ==> t[k].CounterItem? && t[k].sequence <= U64_MAX)
    ensures r.Ok? ==> r.value == CounterValue(t, streamId, partition)
  {
    var k := CounterKey(streamId, partition);
    if Get(k) in f then Err(Database(f[Get(k)]))
    else if k !in t then Ok(0)
    else if !t[k].CounterItem? then Err(Internal("No sequence"))
    else if t[k].sequence <= U64_MAX then Ok(t[k].sequence)
    else Err(Internal(NUMBER_TOO_LARGE))
  }

  /** The offset `create_subscription` gives a partition: its counter for `Latest` (0 when
      that read fails), 0 otherwise. */
  function InitialOffset(t: Table, f: Faults, streamId: string, startFrom: StartFrom, partition: nat): (o: u64)
    ensures startFrom != Latest ==> o == 0
    ensures startFrom == Latest && GetLatestOffset(t, f, streamId, partition).Ok? ==>
      o == CounterValue(t, streamId, partition)
    ensures GetLatestOffset(t, f, streamId, partition).Err? ==> o == 0
  {
    if startFrom == Latest then GetLatestOffset(t, f, streamId, partition).GetOr(0) else 0
  }

  /** `set_offset`: an unconditional put of the partition's offset row. */
  function SetOffset(t: Table, f: Faults, streamId: string, subscriptionId: string, partition: nat,
                     offset: u64, now: int): (r: Step<()>)
    ensures var k := OffsetKey(streamId, subscriptionId, partition);
      && (Put(k) in f ==> r == Step(t, Failed(Database(f[Put(k)]))))
      && (Put(k) !in f ==> r == Step(t[k := OffsetItem(offset, now)], Done(())))
  {
    var k := OffsetKey(streamId, subscriptionId, partition);
    if Put(k) in f then Step(t, Failed(Database(f[Put(k)])))
    else Step(t[k := OffsetItem(offset, now)], Done(()))
  }

  /** The first partition from `p` on whose offset put fails, or `count` if none does. */
  function FirstOffsetPutFault(f: Faults, streamId: string, subscriptionId: string, p: nat, count: nat): (q: nat)
    ensures p <= q <= count || (q == p && p > count)
    ensures forall i: nat :: p <= i < q ==> Put(OffsetKey(streamId, subscriptionId, i)) !in f
    ensures q < count ==> Put(OffsetKey(streamId, subscriptionId, q)) in f
    decreases count - p
  {
    if p >= count || Put(OffsetKey(streamId, subscriptionId, p)) in f then p
    else FirstOffsetPutFault(f, streamId, subscriptionId, p + 1, count)
  }

  /** Reading a counter does not see writes to keys other than counters. */
  lemma InitialOffsetFrame(t: Table, f: Faults, streamId: string, startFrom: StartFrom, partition: nat, k: Key, v: Item)
    requires k.sk != COUNTER
    ensures InitialOffset(t[k := v], f, streamId, startFrom, partition) == InitialOffset(t, f, streamId, startFrom, partition)
  {
    assert CounterKey(streamId, partition) != k;
  }

  /** The offset loop of `create_subscription` for partitions `p` to `count - 1`: each
      partition's row gets its initial offset, and the first failing put ends the loop. */
  function InitOffsets(t: Table, f: Faults, streamId: string, req: CreateSubscriptionRequest,
                       p: nat, count: nat, now: int): (r: Step<()>)
    ensures var q := FirstOffsetPutFault(f, streamId, req.subscriptionId, p, count);
      && (r.outcome.Done? <==> q >= count)
      && (!r.outcome.Done? ==> r.outcome == Failed(Database(f[Put(OffsetKey(streamId, req.subscriptionId, q))])))
    decreases count - p
  {
    if p >= count then Step(t, Done(()))
    else
      var offset := InitialOffset(t, f, streamId, req.startFrom, p);
      var s := SetOffset(t, f, streamId, req.subscriptionId, p, offset, now);
      if !s.outcome.Done? then Step(s.table, Failed(s.outcome.error))
      else InitOffsets(s.table, f, streamId, req, p + 1, count, now)
  }

  /** A put under `pk` followed by changes under `pk` only changes nothing outside `pk`. */
  lemma PutKeepsFrame(t: Table, k: Key, v: Item, r: Table, pk: string)
    requires k.pk == pk
    requires forall k': Key :: k'.pk != pk ==> Unchanged(t[k := v], r, k')
    requires forall k': Key :: k' in r && k' !in t[k := v] ==> k'.pk == pk
    ensures forall k': Key :: k'.pk != pk ==> Unchanged(t, r, k')
    ensures forall k': Key :: k' in r && k' !in t ==> k'.pk == pk
  {
  }

  /** Putting partition `p`'s offset row leaves the rows of partitions below `p` alone. */
  lemma PutKeepsEarlierRows(t: Table, v: Item, r: Table, streamId: string, subscriptionId: string, p: nat)
    requires forall i: nat :: i < p + 1 ==>
      Unchanged(t[OffsetKey(streamId, subscriptionId, p) := v], r, OffsetKey(streamId, subscriptionId, i))
    ensures forall i: nat :: i < p ==> Unchanged(t, r, OffsetKey(streamId, subscriptionId, i))
  {
    forall i: nat | i < p
      ensures Unchanged(t, r, OffsetKey(streamId, subscriptionId, i))
    {
      if OffsetKey(streamId, subscriptionId, i) == OffsetKey(streamId, subscriptionId, p) {
        OffsetSkInjective(i, p);
      }
      assert Unchanged(t[OffsetKey(streamId, subscriptionId, p) := v], r, OffsetKey(streamId, subscriptionId, i));
    }
  }

  /** The offset loop writes nothing outside the subscription's partition key, and no
      row of a partition below `p`. */
  lemma {:induction false} InitOffsetsFrame(t: Table, f: Faults, streamId: string, req: CreateSubscriptionRequest,
                                            p: nat, count: nat, now: int)
    ensures var r := InitOffsets(t, f, streamId, req, p, count, now);
      && (forall k: Key :: k.pk != SubscriptionPk(streamId, req.subscriptionId) ==> Unchanged(t, r.table, k))
      && (forall k: Key :: k in r.table && k !in t ==> k.pk == SubscriptionPk(streamId, req.subscriptionId))
      && (forall i: nat :: i < p ==> Unchanged(t, r.table, OffsetKey(streamId, req.subscriptionId, i)))
    decreases count - p
  {
    if p < count {
      var offset := InitialOffset(t, f, streamId, req.startFrom, p);
      var s := SetOffset(t, f, streamId, req.subscriptionId, p, offset, now);
      if s.outcome.Done? {
        var k := OffsetKey(streamId, req.subscriptionId, p);
        var r := InitOffsets(s.table, f, streamId, req, p + 1, count, now);
        assert r == InitOffsets(t, f, streamId, req, p, count, now);
        InitOffsetsFrame(s.table, f, streamId, req, p + 1, count, now);
        PutKeepsFrame(t, k, OffsetItem(offset, now), r.table, SubscriptionPk(streamId, req.subscriptionId));
        PutKeepsEarlierRows(t, OffsetItem(offset, now), r.table, streamId, req.subscriptionId, p);
      }
    }
  }

  /** The offset loop stores the initial offset of every partition from `p` up to the
      first failing put. */
  lemma InitOffsetsStores(t: Table, f: Faults, streamId: string, req: CreateSubscriptionRequest,
                          p: nat, count: nat, now: int)
    ensures var r := InitOffsets(t, f, streamId, req, p, count, now);
      forall i: nat :: p <= i < FirstOffsetPutFault(f, streamId, req.subscriptionId, p, count) ==>
        var k := OffsetKey(streamId, req.subscriptionId, i);
        k in r.table && r.table[k] == OffsetItem(InitialOffset(t, f, streamId, req.startFrom, i), now)
  {
    forall i: nat | p <= i < FirstOffsetPutFault(f, streamId, req.subscriptionId, p, count)
      ensures var k := OffsetKey(streamId, req.subscriptionId, i);
        var r := InitOffsets(t, f, streamId, req, p, count, now);
        k in r.table && r.table[k] == OffsetItem(InitialOffset(t, f, streamId, req.startFrom, i), now)
    {
      InitOffsetsStoresAt(t, f, streamId, req, p, count, now, i);
    }
  }

  /** One partition's row after the offset loop: its initial offset, read before the loop. */
  lemma {:induction false} InitOffsetsStoresAt(t: Table, f: Faults, streamId: string, req: CreateSubscriptionRequest,
                                               p: nat, count: nat, now: int, i: nat)
    requires p <= i < FirstOffsetPutFault(f, streamId, req.subscriptionId, p, count)
    ensures var k := OffsetKey(streamId, req.subscriptionId, i);
      var r := InitOffsets(t, f, streamId, req, p, count, now);
      k in r.table && r.table[k] == OffsetItem(InitialOffset(t, f, streamId, req.startFrom, i), now)
    decreases count - p
  {
    var offset := InitialOffset(t, f, streamId, req.startFrom, p);
    var k := OffsetKey(streamId, req.subscriptionId, p);
    var st := t[k := OffsetItem(offset, now)];
    assert SetOffset(t, f, streamId, req.subscriptionId, p, offset, now) == Step(st, Done(()));
    if i == p {
      InitOffsetsFrame(st, f, streamId, req, p + 1, count, now);
      assert Unchanged(st, InitOffsets(st, f, streamId, req, p + 1, count, now).table, k);
    } else {
      InitOffsetsStoresAt(st, f, streamId, req, p + 1, count, now, i);
      InitialOffsetFrame(t, f, streamId, req.startFrom, i, k, OffsetItem(offset, now));
    }
  }

  /** `create_subscription`: the stream must exist; a put of the subscription guarded by
      the item's absence; then one offset row per partition. For `Latest` the code also
      reads partition 0's counter once more beforehand and discards the result, which
      changes nothing and is not modelled. */
  function CreateSubscription(t: Table, f: Faults, streamId: string, req: CreateSubscriptionRequest, now: int)
    : (r: Step<Subscription>)
    ensures !r.outcome.Panicked?
    ensures GetStream(t, f, streamId).Err? ==> r == Step(t, Failed(GetStream(t, f, streamId).error))
    ensures var k := SubscriptionKey(streamId, req.subscriptionId);
      GetStream(t, f, streamId).Ok? && k in t && Put(k) !in f ==>
        r == Step(t, Failed(SubscriptionAlreadyExists(req.subscriptionId)))
    ensures var k := SubscriptionKey(streamId, req.subscriptionId);
      r.outcome.Done? <==>
        && GetStream(t, f, streamId).Ok? && k !in t && Put(k) !in f
        && FirstOffsetPutFault(f, streamId, req.subscriptionId, 0, GetStream(t, f, streamId).value.partitionCount)
           >= GetStream(t, f, streamId).value.partitionCount
    ensures r.outcome.Done? ==>
      && r.outcome.value == Subscription(streamId, req.subscriptionId, now)
      && SubscriptionKey(streamId, req.subscriptionId) in r.table
      && r.table[SubscriptionKey(streamId, req.subscriptionId)] == SubscriptionItem(r.outcome.value)
      && forall p: nat :: p < GetStream(t, f, streamId).value.partitionCount ==>
           var k := OffsetKey(streamId, req.subscriptionId, p);
           k in r.table && r.table[k] == OffsetItem(InitialOffset(t, f, streamId, req.startFrom, p), now)
    ensures forall k: Key ::
      (k.pk != SubscriptionPk(streamId, req.subscriptionId) && k != SubscriptionKey(streamId, req.subscriptionId))
        ==> Unchanged(t, r.table, k)
  {
    match GetStream(t, f, streamId)
    case Err(e) => Step(t, Failed(e))
    case Ok(stream) =>
      var subscription := Subscription(streamId, req.subscriptionId, now);
      var k := SubscriptionKey(streamId, req.subscriptionId);
      if Put(k) in f then
        Step(t, Failed(ConditionalPutError(f[Put(k)], SubscriptionAlreadyExists(req.subscriptionId))))
      else if k in t then
        Step(t, Failed(SubscriptionAlreadyExists(req.subscriptionId)))
      else
        var t' := t[k := SubscriptionItem(subscription)];
        var r := InitOffsets(t', f, streamId, req, 0, stream.partitionCount, now);
        InitOffsetsFrame(t', f, streamId, req, 0, stream.partitionCount, now);
        InitOffsetsStores(t', f, streamId, req, 0, stream.partitionCount, now);
        assert SubSk(req.subscriptionId)[1] == 'U' && COUNTER[1] == 'O';
        forall p: nat
          ensures InitialOffset(t', f, streamId, req.startFrom, p) == InitialOffset(t, f, streamId, req.startFrom, p)
        {
          InitialOffsetFrame(t, f, streamId, req.startFrom, p, k, SubscriptionItem(subscription));
        }
        assert k.pk != SubscriptionPk(streamId, req.subscriptionId) by {
          SubscriptionPkNotStreamPk(streamId, req.subscriptionId);
        }
        Step(r.table, if r.outcome.Done? then Done(subscription) else Failed(r.outcome.error))
  }

  /** `get_offset`: a partition's committed offset; no row means the subscription is
      unknown. */
  function GetOffset(t: Table, f: Faults, streamId: string, subscriptionId: string, partition: nat)
    : (r: Result<u64, Error>)
    ensures var k := OffsetKey(streamId, subscriptionId, partition);
      && (Get(k) in f ==> r == Err(Database(f[Get(k)])))
      && (Get(k) !in f && k !in t ==> r == Err(SubscriptionNotFound(subscriptionId)))
      && (r.Ok? <==> Get(k) !in f && k in t && t[k].OffsetItem?)
      && (r.Ok? ==> t[k] == OffsetItem(r.value, t[k].committedAt))
  {
    var k := OffsetKey(streamId, subscriptionId, partition);
    if Get(k) in f then Err(Database(f[Get(k)]))
    else if k !in t then Err(SubscriptionNotFound(subscriptionId))
    else if t[k].OffsetItem? then Ok(t[k].offset)
    else Err(Internal("No offset"))
  }

  /** `commit_offsets`: `set_offset` for each entry in order; the first failure ends the
      loop with the earlier entries written. Nothing compares an entry with the offset
      already stored. */
  function CommitOffsets(t: Table, f: Faults, streamId: string, subscriptionId: string,
                         offsets: seq<PartitionOffset>, now: int): (r: Step<()>)
    ensures !r.outcome.Panicked?
    ensures !r.outcome.Done? ==> r.outcome.error.Database?
    ensures forall k: Key :: k.pk != SubscriptionPk(streamId, subscriptionId) ==> Unchanged(t, r.table, k)
    ensures forall k: Key :: k in r.table && k !in t ==> k.pk == SubscriptionPk(streamId, subscriptionId)
    decreases |offsets|
  {
    if |offsets| == 0 then Step(t, Done(()))
    else
      var s := SetOffset(t, f, streamId, subscriptionId, offsets[0].partition, offsets[0].offset, now);
      if !s.outcome.Done? then Step(s.table, Failed(s.outcome.error))
      else CommitOffsets(s.table, f, streamId, subscriptionId, offsets[1..], now)
  }

  /** `get_subscription`. */
  function GetSubscription(t: Table, f: Faults, streamId: string, subscriptionId: string)
    : (r: Result<Subscription, Error>)
    ensures var k := SubscriptionKey(streamId, subscriptionId);
      && (Get(k) in f ==> r == Err(Database(f[Get(k)])))
      && (Get(k) !in f && k !in t ==> r == Err(SubscriptionNotFound(subscriptionId)))
      && (r.Ok? <==> Get(k) !in f && k in t && t[k].SubscriptionItem?)
      && (r.Ok? ==> t[k] == SubscriptionItem(r.value))
  {
    var k := SubscriptionKey(streamId, subscriptionId);
    if Get(k) in f then Err(Database(f[Get(k)]))
    else if k !in t then Err(SubscriptionNotFound(subscriptionId))
    else if t[k].SubscriptionItem? then Ok(t[k].subscription)
    else Err(DynamoSerialization("invalid type: expected struct Subscription"))
  }

  // ---------------------------------------------------------------------------
  // Compaction
  // ---------------------------------------------------------------------------

  /** `put_compacted`: an unconditional put under the (stream, key) compacted row. */
  function PutCompacted(t: Table, f: Faults, c: CompactedEvent): (r: Step<()>)
    ensures var k := CompactKey(c.streamId, c.key);
      && (Put(k) in f ==> r == Step(t, Failed(Database(f[Put(k)]))))
      && (Put(k) !in f ==> r == Step(t[k := CompactedItem(c)], Done(())))
  {
    var k := CompactKey(c.streamId, c.key);
    if Put(k) in f then Step(t, Failed(Database(f[Put(k)])))
    else Step(t[k := CompactedItem(c)], Done(()))
  }

  /** `get_compacted`: the compacted row of a key, `None` when there is none. */
  function GetCompacted(t: Table, f: Faults, streamId: string, key: string)
    : (r: Result<Option<CompactedEvent>, Error>)
    ensures var k := CompactKey(streamId, key);
      && (Get(k) in f ==> r == Err(Database(f[Get(k)])))
      && (Get(k) !in f && k !in t ==> r == Ok(None))
      && (r.Ok? && r.value.Some? <==> Get(k) !in f && k in t && t[k].CompactedItem?)
      && (r.Ok? && r.value.Some? ==> t[k] == CompactedItem(r.value.value))
  {
    var k := CompactKey(streamId, key);
    if Get(k) in f then Err(Database(f[Get(k)]))
    else if k !in t then Ok(None)
    else if t[k].CompactedItem? then Ok(Some(t[k].compacted))
    else Err(DynamoSerialization("invalid type: expected struct CompactedEvent"))
  }

  /** The compacted events held under `pk` at the sort keys `sks`, in that order. */
  function CompactedAt(t: Table, pk: string, sks: seq<string>): (r: seq<CompactedEvent>)
    ensures |r| <= |sks|
  {
    if |sks| == 0 then []
    else
      var k := Key(pk, sks[0]);
      (if k in t && t[k].CompactedItem? then [t[k].compacted] else []) + CompactedAt(t, pk, sks[1..])
  }

  /** `list_compacted`: a query for the stream's compacted PK restricted to sort keys
      beginning with `KEY#`, ascending; the items that are compacted events. */
  function ListCompacted(t: Table, f: Faults, streamId: string): (r: Result<seq<CompactedEvent>, Error>)
    ensures Query(CompactPk(streamId)) in f ==> r == Err(Database(f[Query(CompactPk(streamId))]))
    ensures r.Ok? <==> Query(CompactPk(streamId)) !in f
  {
    var pk := CompactPk(streamId);
    if Query(pk) in f then Err(Database(f[Query(pk)]))
    else Ok(CompactedAt(t, pk, Ascending(set k: Key | k in t && k.pk == pk && StartsWith(k.sk, "KEY#") :: k.sk)))
  }
}
