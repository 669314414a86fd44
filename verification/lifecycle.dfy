/** How the store operations compose: what a read sees after a write, that every
    writer keeps the table well formed, and that committing offsets is a plain
    last-write-wins overwrite. */
module Lifecycle {
  import opened Wrappers
  import opened Strings
  import opened Numbers
  import opened Keys
  import opened Models
  import opened Errors
  import opened Store
  import opened Dynamo

  // ---------------------------------------------------------------------------
  // Streams
  // ---------------------------------------------------------------------------

  /** A created stream can be read back, with no backend faults on the read. */
  lemma CreateThenGetStream(t: Table, f: Faults, req: CreateStreamRequest, now: int, g: Faults)
    requires CreateStream(t, f, req, now).outcome.Done?
    requires Get(MetaKey(req.streamId)) !in g
    ensures GetStream(CreateStream(t, f, req, now).table, g, req.streamId)
      == Ok(NewStream(req.streamId, req.partitionCount, req.retentionHours, now))
  {
    var r := CreateStream(t, f, req, now);
    var k := MetaKey(req.streamId);
    assert k !in ZeroCounters(req.streamId, 0, req.partitionCount) by {
      assert META[0] == 'M' && COUNTER[0] == 'C';
    }
  }

  /** Creating a stream that exists fails with the conflict and changes nothing, so a
      second identical create never overwrites the first. */
  lemma CreateStreamTwice(t: Table, f: Faults, req: CreateStreamRequest, now: int, later: int)
    requires CreateStream(t, f, req, now).outcome.Done?
    requires Put(MetaKey(req.streamId)) !in f
    ensures var t' := CreateStream(t, f, req, now).table;
      CreateStream(t', f, req, later) == Step(t', Failed(StreamAlreadyExists(req.streamId)))
  {
    CreateThenGetStream(t, f, req, now, map[]);
  }

  /** After a completed delete the stream is gone; its events stay where they were. */
  lemma DeleteThenGetStream(t: Table, f: Faults, streamId: string, g: Faults, partition: nat, sequence: u64)
    requires DeleteStream(t, f, streamId).outcome.Done?
    requires Get(MetaKey(streamId)) !in g
    ensures var t' := DeleteStream(t, f, streamId).table;
      && GetStream(t', g, streamId) == Err(StreamNotFound(streamId))
      && Unchanged(t, t', EventKey(streamId, partition, sequence))
  {
    var t' := DeleteStream(t, f, streamId).table;
    assert SeqSk(sequence)[0] == 'S' && META[0] == 'M' && COUNTER[0] == 'C';
  }

  /** Merging items that are not events under keys that are not event keys keeps a
      table well formed. */
  lemma WellFormedMerge(t: Table, m: map<Key, Item>)
    requires WellFormed(t)
    requires forall k :: k in m ==> !m[k].EventItem? && !StartsWith(k.sk, SEQ_PREFIX)
    ensures WellFormed(t + m)
  {
  }

  lemma CreateStreamWellFormed(t: Table, f: Faults, req: CreateStreamRequest, now: int)
    requires WellFormed(t)
    ensures WellFormed(CreateStream(t, f, req, now).table)
  {
    var r := CreateStream(t, f, req, now);
    var k := MetaKey(req.streamId);
    OnlyEventsStartWithSeq("", 0, "");
    if r.table != t {
      var q := FirstCounterPutFault(f, req.streamId, 0, req.partitionCount);
      assert r.table == t[k := StreamItem(NewStream(req.streamId, req.partitionCount, req.retentionHours, now))]
        + ZeroCounters(req.streamId, 0, q) by {
        // the metadata put succeeded, so the counter loop ran
        assert Put(k) !in f && k !in t;
      }
      WellFormedPutOther(t, k, StreamItem(NewStream(req.streamId, req.partitionCount, req.retentionHours, now)));
      WellFormedMerge(t[k := StreamItem(NewStream(req.streamId, req.partitionCount, req.retentionHours, now))],
                      ZeroCounters(req.streamId, 0, q));
    }
  }

  lemma DeleteStreamWellFormed(t: Table, f: Faults, streamId: string)
    requires WellFormed(t)
    ensures WellFormed(DeleteStream(t, f, streamId).table)
  {
  }

  // ---------------------------------------------------------------------------
  // Subscriptions and offsets
  // ---------------------------------------------------------------------------

  /** A created subscription can be read back. */
  lemma CreateThenGetSubscription(t: Table, f: Faults, streamId: string, req: CreateSubscriptionRequest,
                                  now: int, g: Faults)
    requires CreateSubscription(t, f, streamId, req, now).outcome.Done?
    requires Get(SubscriptionKey(streamId, req.subscriptionId)) !in g
    ensures GetSubscription(CreateSubscription(t, f, streamId, req, now).table, g, streamId, req.subscriptionId)
      == Ok(Subscription(streamId, req.subscriptionId, now))
  {
  }

  /** Where a new subscription starts reading each partition: `Latest` at the
      partition's current counter (events already published are skipped), `Earliest`
      and `Compacted` at 0 (every event is delivered). */
  lemma SubscriptionStartsAt(t: Table, f: Faults, streamId: string, req: CreateSubscriptionRequest,
                             now: int, g: Faults, partition: nat)
    requires CreateSubscription(t, f, streamId, req, now).outcome.Done?
    requires partition < GetStream(t, f, streamId).value.partitionCount
    requires Get(OffsetKey(streamId, req.subscriptionId, partition)) !in g
    ensures var o := GetOffset(CreateSubscription(t, f, streamId, req, now).table, g, streamId, req.subscriptionId, partition);
      && o.Ok?
      && (req.startFrom != Latest ==> o.value == 0)
      && (req.startFrom == Latest && GetLatestOffset(t, f, streamId, partition).Ok? ==>
            o.value == CounterValue(t, streamId, partition))
      && (req.startFrom == Latest && GetLatestOffset(t, f, streamId, partition).Err? ==> o.value == 0)
  {
  }

  /** The offset of the last entry for `partition` in a commit list, if any. */
  function LastOffset(offsets: seq<PartitionOffset>, partition: nat): (r: Option<u64>)
    ensures r.None? <==> forall i :: 0 <= i < |offsets| ==> offsets[i].partition != partition
    ensures r.Some? ==> exists i :: 0 <= i < |offsets| && offsets[i] == PartitionOffset(partition, r.value)
    decreases |offsets|
  {
    if |offsets| == 0 then None
    else
      var last := offsets[|offsets| - 1];
      if last.partition == partition then Some(last.offset)
      else LastOffset(offsets[..|offsets| - 1], partition)
  }

  lemma {:induction false} LastOffsetCons(offsets: seq<PartitionOffset>, partition: nat)
    requires |offsets| > 0
    ensures LastOffset(offsets, partition) ==
      match LastOffset(offsets[1..], partition)
      case Some(o) => Some(o)
      case None => if offsets[0].partition == partition then Some(offsets[0].offset) else None
    decreases |offsets|
  {
    if |offsets| > 1 {
      var init := offsets[..|offsets| - 1];
      assert init[1..] == offsets[1..][..|offsets[1..]| - 1];
      assert offsets[1..][|offsets[1..]| - 1] == offsets[|offsets| - 1];
      LastOffsetCons(init, partition);
    } else {
      assert offsets[1..] == [];
    }
  }

  /** A completed commit leaves each listed partition at the offset of its last entry,
      whatever was stored before, and every unlisted partition's row as it was. */
  lemma {:induction false} CommitThenGet(t: Table, f: Faults, streamId: string, subscriptionId: string,
                                         offsets: seq<PartitionOffset>, now: int, partition: nat)
    requires CommitOffsets(t, f, streamId, subscriptionId, offsets, now).outcome.Done?
    ensures var t' := CommitOffsets(t, f, streamId, subscriptionId, offsets, now).table;
      var k := OffsetKey(streamId, subscriptionId, partition);
      && (LastOffset(offsets, partition).Some? ==>
            k in t' && t'[k] == OffsetItem(LastOffset(offsets, partition).value, now))
      && (LastOffset(offsets, partition).None? ==> Unchanged(t, t', k))
    decreases |offsets|
  {
    if |offsets| > 0 {
      var po := offsets[0];
      var k0 := OffsetKey(streamId, subscriptionId, po.partition);
      var s := SetOffset(t, f, streamId, subscriptionId, po.partition, po.offset, now);
      CommitThenGet(s.table, f, streamId, subscriptionId, offsets[1..], now, partition);
      LastOffsetCons(offsets, partition);
      if po.partition != partition {
        if OffsetKey(streamId, subscriptionId, partition) == k0 {
          OffsetSkInjective(partition, po.partition);
        }
      }
    }
  }

  /** No monotonicity: committing an offset replaces the stored one even when it is
      smaller, so a consumer can move itself backwards (and re-read events). */
  lemma CommitRewinds(t: Table, f: Faults, streamId: string, subscriptionId: string, partition: u32,
                      before: u64, after: u64, now: int)
    requires after < before
    requires GetOffset(t, f, streamId, subscriptionId, partition) == Ok(before)
    requires Put(OffsetKey(streamId, subscriptionId, partition)) !in f
    ensures var t' := CommitOffsets(t, f, streamId, subscriptionId, [PartitionOffset(partition, after)], now).table;
      GetOffset(t', f, streamId, subscriptionId, partition) == Ok(after)
  {
    CommitThenGet(t, f, streamId, subscriptionId, [PartitionOffset(partition, after)], now, partition);
  }

  lemma {:induction false} InitOffsetsWellFormed(t: Table, f: Faults, streamId: string, req: CreateSubscriptionRequest,
                                                 p: nat, count: nat, now: int)
    requires WellFormed(t)
    ensures WellFormed(InitOffsets(t, f, streamId, req, p, count, now).table)
    decreases count - p
  {
    if p < count {
      var k := OffsetKey(streamId, req.subscriptionId, p);
      OnlyEventsStartWithSeq("", p, "");
      var offset := InitialOffset(t, f, streamId, req.startFrom, p);
      if Put(k) !in f {
        WellFormedPutOther(t, k, OffsetItem(offset, now));
        InitOffsetsWellFormed(t[k := OffsetItem(offset, now)], f, streamId, req, p + 1, count, now);
      }
    }
  }

  lemma CreateSubscriptionWellFormed(t: Table, f: Faults, streamId: string, req: CreateSubscriptionRequest, now: int)
    requires WellFormed(t)
    ensures WellFormed(CreateSubscription(t, f, streamId, req, now).table)
  {
    var k := SubscriptionKey(streamId, req.subscriptionId);
    if GetStream(t, f, streamId).Ok? && Put(k) !in f && k !in t {
      var subscription := Subscription(streamId, req.subscriptionId, now);
      OnlyEventsStartWithSeq(req.subscriptionId, 0, "");
      WellFormedPutOther(t, k, SubscriptionItem(subscription));
      InitOffsetsWellFormed(t[k := SubscriptionItem(subscription)], f, streamId, req, 0,
                            GetStream(t, f, streamId).value.partitionCount, now);
    }
  }

  lemma {:induction false} CommitOffsetsWellFormed(t: Table, f: Faults, streamId: string, subscriptionId: string,
                                                   offsets: seq<PartitionOffset>, now: int)
    requires WellFormed(t)
    ensures WellFormed(CommitOffsets(t, f, streamId, subscriptionId, offsets, now).table)
    decreases |offsets|
  {
    if |offsets| > 0 {
      var po := offsets[0];
      var k := OffsetKey(streamId, subscriptionId, po.partition);
      OnlyEventsStartWithSeq("", po.partition, "");
      if Put(k) !in f {
        WellFormedPutOther(t, k, OffsetItem(po.offset, now));
        CommitOffsetsWellFormed(t[k := OffsetItem(po.offset, now)], f, streamId, subscriptionId, offsets[1..], now);
      }
    }
  }

  // ---------------------------------------------------------------------------
  // Compacted rows
  // ---------------------------------------------------------------------------

  /** A compacted row reads back as written, and writing one key's row leaves every
      other key's row as it was. */
  lemma PutThenGetCompacted(t: Table, f: Faults, c: CompactedEvent, g: Faults, streamId: string, key: string)
    requires PutCompacted(t, f, c).outcome.Done?
    requires Get(CompactKey(streamId, key)) !in g
    ensures var t' := PutCompacted(t, f, c).table;
      && (streamId == c.streamId && key == c.key ==> GetCompacted(t', g, streamId, key) == Ok(Some(c)))
      && (streamId != c.streamId || key != c.key ==> GetCompacted(t', g, streamId, key) == GetCompacted(t, g, streamId, key))
  {
    if CompactKey(streamId, key) == CompactKey(c.streamId, c.key) {
      CompactKeyInjective(streamId, key, c.streamId, c.key);
    }
  }

  lemma PutCompactedWellFormed(t: Table, f: Faults, c: CompactedEvent)
    requires WellFormed(t)
    ensures WellFormed(PutCompacted(t, f, c).table)
  {
    OnlyEventsStartWithSeq("", 0, c.key);
    if Put(CompactKey(c.streamId, c.key)) !in f {
      WellFormedPutOther(t, CompactKey(c.streamId, c.key), CompactedItem(c));
    }
  }

  /** A compacted event is in the list exactly when one of the stream's `KEY#` rows
      holds it. */
  lemma {:induction false} CompactedAtMembers(t: Table, pk: string, sks: seq<string>, c: CompactedEvent)
    ensures c in CompactedAt(t, pk, sks) <==>
      exists sk :: sk in sks && Key(pk, sk) in t && t[Key(pk, sk)] == CompactedItem(c)
    decreases |sks|
  {
    if |sks| > 0 {
      CompactedAtMembers(t, pk, sks[1..], c);
      assert forall sk :: sk in sks <==> sk == sks[0] || sk in sks[1..];
    }
  }

  lemma ListCompactedMembers(t: Table, f: Faults, streamId: string, c: CompactedEvent)
    requires ListCompacted(t, f, streamId).Ok?
    ensures c in ListCompacted(t, f, streamId).value <==>
      exists key :: CompactKey(streamId, key) in t && t[CompactKey(streamId, key)] == CompactedItem(c)
  {
    var pk := CompactPk(streamId);
    var sks := Ascending(set k: Key | k in t && k.pk == pk && StartsWith(k.sk, "KEY#") :: k.sk);
    assert ListCompacted(t, f, streamId).value == CompactedAt(t, pk, sks);
    CompactedAtMembers(t, pk, sks, c);
    if c in ListCompacted(t, f, streamId).value {
      var sk :| sk in sks && Key(pk, sk) in t && t[Key(pk, sk)] == CompactedItem(c);
      CompactSkHasKey(sk);
      assert Key(pk, sk) == CompactKey(streamId, sk[4..]);
    }
    if exists key :: CompactKey(streamId, key) in t && t[CompactKey(streamId, key)] == CompactedItem(c) {
      var key :| CompactKey(streamId, key) in t && t[CompactKey(streamId, key)] == CompactedItem(c);
      assert StartsWith(KeySk(key), "KEY#");
      assert KeySk(key) in sks;
    }
  }

  lemma CompactSkHasKey(sk: string)
    requires StartsWith(sk, "KEY#")
    ensures sk == KeySk(sk[4..])
  {
  }
}
