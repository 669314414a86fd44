/** What `publish_events` guarantees about sequences: per partition, the events of one
    call take the next counter values in order, the counter ends advanced by their
    number, each event is stored under its sequence, and nothing else is written. */
module Sequencing {
  import opened Numbers
  import opened Strings
  import opened Keys
  import opened Models
  import opened Store
  import opened Dynamo
  import Partitioner

  /** The number of published events that went to `partition`. */
  function Hits(ps: seq<PublishedEvent>, partition: nat): (n: nat)
    ensures n <= |ps|
  {
    if |ps| == 0 then 0
    else (if ps[0].partition == partition then 1 else 0) + Hits(ps[1..], partition)
  }

  lemma {:induction false} HitsSnoc(ps: seq<PublishedEvent>, x: PublishedEvent, partition: nat)
    ensures Hits(ps + [x], partition) == Hits(ps, partition) + (if x.partition == partition then 1 else 0)
    decreases |ps|
  {
    if |ps| > 0 {
      assert (ps + [x])[1..] == ps[1..] + [x];
      HitsSnoc(ps[1..], x, partition);
    } else {
      assert (ps + [x])[1..] == [];
    }
  }

  /** When every event went to one partition, each of them counts. */
  lemma {:induction false} HitsAll(ps: seq<PublishedEvent>, partition: nat)
    requires forall i :: 0 <= i < |ps| ==> ps[i].partition == partition
    ensures Hits(ps, partition) == |ps|
    decreases |ps|
  {
    if |ps| > 0 {
      HitsAll(ps[1..], partition);
    }
  }

  /** A later event of the same partition has counted strictly more events. */
  lemma {:induction false} HitsGrow(ps: seq<PublishedEvent>, i: nat, j: nat)
    requires i < j < |ps| && ps[j].partition == ps[i].partition
    ensures Hits(ps[..i + 1], ps[i].partition) < Hits(ps[..j + 1], ps[i].partition)
    decreases j - i
  {
    var p := ps[i].partition;
    assert ps[..j + 1] == ps[..j] + [ps[j]];
    HitsSnoc(ps[..j], ps[j], p);
    if i + 1 < j {
      HitsPrefixGrows(ps, i + 1, j, p);
    }
  }

  /** Counting over a longer prefix counts at least as many. */
  lemma {:induction false} HitsPrefixGrows(ps: seq<PublishedEvent>, m: nat, n: nat, partition: nat)
    requires m <= n <= |ps|
    ensures Hits(ps[..m], partition) <= Hits(ps[..n], partition)
    decreases n - m
  {
    if m < n {
      assert ps[..n] == ps[..n - 1] + [ps[n - 1]];
      HitsSnoc(ps[..n - 1], ps[n - 1], partition);
      HitsPrefixGrows(ps, m, n - 1, partition);
    }
  }

  lemma UnchangedTrans(t: Table, t': Table, t'': Table, k: Key)
    requires Unchanged(t, t', k) && Unchanged(t', t'', k)
    ensures Unchanged(t, t'', k)
  {
  }

  lemma CounterKeyInjective(streamId: string, p: nat, q: nat)
    requires CounterKey(streamId, p) == CounterKey(streamId, q)
    ensures p == q
  {
    PartitionPkInjective(streamId, p, streamId, q);
  }

  /** An event key is never a counter key. */
  lemma EventKeyNotCounterKey(a: string, p: nat, s: u64, b: string, q: nat)
    ensures EventKey(a, p, s) != CounterKey(b, q)
  {
    assert EventKey(a, p, s).sk[0] == 'S' && CounterKey(b, q).sk[0] == 'C';
  }

  /** Writing the counter of one partition changes no other partition's counter. */
  lemma CounterValuePut(t: Table, streamId: string, partition: nat, n: nat, other: string, p: nat)
    ensures CounterValue(t[CounterKey(streamId, partition) := CounterItem(n)], other, p)
      == if other == streamId && p == partition then n else CounterValue(t, other, p)
  {
    if CounterKey(other, p) == CounterKey(streamId, partition) {
      PartitionPkInjective(other, p, streamId, partition);
    }
  }

  lemma CounterValuePutEvent(t: Table, key: Key, item: Item, other: string, p: nat)
    requires key.sk != COUNTER
    ensures CounterValue(t[key := item], other, p) == CounterValue(t, other, p)
  {
  }

  /** The table after the first event of a publish loop: its counter advanced by one,
      its event put under the new sequence. */
  lemma HeadStep(t: Table, f: Faults, streamId: string, partition: u32, e: PublishEvent, now: int)
    requires IncrementSequence(t, f, streamId, partition).outcome.Done?
    ensures var inc := IncrementSequence(t, f, streamId, partition);
      var s := inc.outcome.value;
      var t' := inc.table[EventKey(streamId, partition, s) := EventItem(StoredEvent(streamId, partition, s, e, now))];
      && s == CounterValue(t, streamId, partition) + 1
      && (forall other: string, p: nat :: CounterValue(t', other, p)
            == CounterValue(t, other, p) + (if other == streamId && p == partition then 1 else 0))
      && (forall k :: k != CounterKey(streamId, partition) && k != EventKey(streamId, partition, s) ==> Unchanged(t, t', k))
  {
    var inc := IncrementSequence(t, f, streamId, partition);
    var s := inc.outcome.value;
    var ek := EventKey(streamId, partition, s);
    var t' := inc.table[ek := EventItem(StoredEvent(streamId, partition, s, e, now))];
    forall other: string, p: nat
      ensures CounterValue(t', other, p) == CounterValue(t, other, p) + (if other == streamId && p == partition then 1 else 0)
    {
      CounterValuePut(t, streamId, partition, s, other, p);
      assert ek.sk[0] == 'S' && COUNTER[0] == 'C';
      CounterValuePutEvent(inc.table, ek, EventItem(StoredEvent(streamId, partition, s, e, now)), other, p);
    }
  }

  /** What a publish may change between `t` and `u`: nothing but counters and new events
      of the stream; other kinds of item, the stream's existing events and other streams'
      counters and events stay, and no counter of the stream goes down. */
  ghost predicate PublishFrame(t: Table, u: Table, streamId: string) {
    && (forall k: Key :: k.sk != COUNTER && !StartsWith(k.sk, SEQ_PREFIX) ==> Unchanged(t, u, k))
    && (forall p: nat, s: u64 :: s <= CounterValue(t, streamId, p) ==> Unchanged(t, u, EventKey(streamId, p, s)))
    && (forall other: string, p: nat :: other != streamId ==> Unchanged(t, u, CounterKey(other, p)))
    && (forall other: string, p: nat, s: u64 :: other != streamId ==> Unchanged(t, u, EventKey(other, p, s)))
    && (forall p: nat :: CounterValue(t, streamId, p) <= CounterValue(u, streamId, p))
  }

  lemma FrameTransitive(t: Table, m: Table, u: Table, streamId: string)
    requires PublishFrame(t, m, streamId) && PublishFrame(m, u, streamId)
    ensures PublishFrame(t, u, streamId)
  {
    forall k: Key | k.sk != COUNTER && !StartsWith(k.sk, SEQ_PREFIX)
      ensures Unchanged(t, u, k)
    {
      UnchangedTrans(t, m, u, k);
    }
    forall p: nat, s: u64 | s <= CounterValue(t, streamId, p)
      ensures Unchanged(t, u, EventKey(streamId, p, s))
    {
      UnchangedTrans(t, m, u, EventKey(streamId, p, s));
    }
    forall other: string, p: nat | other != streamId
      ensures Unchanged(t, u, CounterKey(other, p))
    {
      UnchangedTrans(t, m, u, CounterKey(other, p));
    }
    forall other: string, p: nat, s: u64 | other != streamId
      ensures Unchanged(t, u, EventKey(other, p, s))
    {
      UnchangedTrans(t, m, u, EventKey(other, p, s));
    }
  }

  /** An increment, completed or not, stays within the frame. */
  lemma IncrementFrame(t: Table, f: Faults, streamId: string, partition: u32)
    ensures PublishFrame(t, IncrementSequence(t, f, streamId, partition).table, streamId)
  {
    var inc := IncrementSequence(t, f, streamId, partition);
    var ck := CounterKey(streamId, partition);
    forall p: nat
      ensures CounterValue(t, streamId, p) <= CounterValue(inc.table, streamId, p)
    {
      if inc.table != t {
        CounterValuePut(t, streamId, partition, CounterValue(t, streamId, partition) + 1, streamId, p);
      }
    }
    forall other: string, p: nat | other != streamId
      ensures Unchanged(t, inc.table, CounterKey(other, p))
    {
      if CounterKey(other, p) == ck {
        PartitionPkInjective(other, p, streamId, partition);
      }
    }
    forall other: string, p: nat, s: u64
      ensures Unchanged(t, inc.table, EventKey(other, p, s))
    {
      EventKeyNotCounterKey(other, p, s, streamId, partition);
    }
  }

  /** The first step of a publish loop that stores its event stays within the frame. */
  lemma HeadFrame(t: Table, f: Faults, streamId: string, partition: u32, e: PublishEvent, now: int)
    requires IncrementSequence(t, f, streamId, partition).outcome.Done?
    ensures var inc := IncrementSequence(t, f, streamId, partition);
      var s := inc.outcome.value;
      PublishFrame(t, inc.table[EventKey(streamId, partition, s) := EventItem(StoredEvent(streamId, partition, s, e, now))],
                   streamId)
  {
    var inc := IncrementSequence(t, f, streamId, partition);
    var s := inc.outcome.value;
    var ek := EventKey(streamId, partition, s);
    var t' := inc.table[ek := EventItem(StoredEvent(streamId, partition, s, e, now))];
    HeadStep(t, f, streamId, partition, e, now);
    forall p: nat, s0: u64 | s0 <= CounterValue(t, streamId, p)
      ensures Unchanged(t, t', EventKey(streamId, p, s0))
    {
      EventKeyNotCounterKey(streamId, p, s0, streamId, partition);
      if EventKey(streamId, p, s0) == ek {
        EventKeyInjective(streamId, p, s0, streamId, partition, s);
      }
    }
    forall other: string, p: nat | other != streamId
      ensures Unchanged(t, t', CounterKey(other, p))
    {
      if CounterKey(other, p) == CounterKey(streamId, partition) {
        PartitionPkInjective(other, p, streamId, partition);
      }
    }
    forall other: string, p: nat, s0: u64 | other != streamId
      ensures Unchanged(t, t', EventKey(other, p, s0))
    {
      EventKeyNotCounterKey(other, p, s0, streamId, partition);
      if EventKey(other, p, s0) == ek {
        EventKeyInjective(other, p, s0, streamId, partition, s);
      }
    }
  }

  /** A publish loop stays within the frame, whatever fails. */
  lemma {:induction false} PublishEachFrame(t: Table, f: Faults, sha256: seq<byte> -> Partitioner.Digest,
                                            part: Partitioner.Partitioner, streamId: string,
                                            events: seq<PublishEvent>, now: int)
    requires part.partitionCount > 0
    ensures PublishFrame(t, PublishEach(t, f, sha256, part, streamId, events, now).table, streamId)
    decreases |events|
  {
    var r := PublishEach(t, f, sha256, part, streamId, events, now);
    if |events| > 0 {
      var e := events[0];
      var partition := Partitioner.Partition(part, sha256, e.key);
      var inc := IncrementSequence(t, f, streamId, partition);
      PublishEachTable(t, f, sha256, part, streamId, events, now);
      IncrementFrame(t, f, streamId, partition);
      if inc.outcome.Done? {
        var s := inc.outcome.value;
        var ek := EventKey(streamId, partition, s);
        if Put(ek) !in f {
          var t' := inc.table[ek := EventItem(StoredEvent(streamId, partition, s, e, now))];
          HeadFrame(t, f, streamId, partition, e, now);
          PublishEachFrame(t', f, sha256, part, streamId, events[1..], now);
          FrameTransitive(t, t', r.table, streamId);
        }
      }
    } else {
      assert r.table == t;
    }
  }

  /** Sequences of one call, per partition: the i-th published event's sequence is its
      partition's counter before the call plus the number of events of that partition up
      to and including it; each counter ends advanced by its partition's event count. */
  lemma {:induction false} PublishEachCounters(t: Table, f: Faults, sha256: seq<byte> -> Partitioner.Digest,
                                               part: Partitioner.Partitioner, streamId: string,
                                               events: seq<PublishEvent>, now: int)
    requires part.partitionCount > 0
    ensures var r := PublishEach(t, f, sha256, part, streamId, events, now);
      r.outcome.Done? ==>
        && (forall i :: 0 <= i < |r.outcome.value| ==>
              r.outcome.value[i].sequence
                == CounterValue(t, streamId, r.outcome.value[i].partition)
                   + Hits(r.outcome.value[..i + 1], r.outcome.value[i].partition))
        && (forall p: nat :: CounterValue(r.table, streamId, p) == CounterValue(t, streamId, p) + Hits(r.outcome.value, p))
    decreases |events|
  {
    var r := PublishEach(t, f, sha256, part, streamId, events, now);
    if |events| > 0 && r.outcome.Done? {
      var e := events[0];
      var partition := Partitioner.Partition(part, sha256, e.key);
      var inc := IncrementSequence(t, f, streamId, partition);
      var s := inc.outcome.value;
      var ek := EventKey(streamId, partition, s);
      var t' := inc.table[ek := EventItem(StoredEvent(streamId, partition, s, e, now))];
      HeadStep(t, f, streamId, partition, e, now);
      PublishEachCounters(t', f, sha256, part, streamId, events[1..], now);
      var rest := PublishEach(t', f, sha256, part, streamId, events[1..], now);
      var h := PublishedEvent(streamId, partition, s, e.key, now);
      assert r.outcome.value == [h] + rest.outcome.value;
      assert r.table == rest.table;
      ConsSequences(h, rest.outcome.value, t, t', streamId);
    }
  }

  /** The counting step of `PublishEachCounters`: putting an event that took its
      partition's next sequence in front of a run that counted from the advanced counters. */
  lemma ConsSequences(h: PublishedEvent, rest: seq<PublishedEvent>, t: Table, t': Table, streamId: string)
    requires h.sequence == CounterValue(t, streamId, h.partition) + 1
    requires forall p: nat :: CounterValue(t', streamId, p) == CounterValue(t, streamId, p) + (if p == h.partition then 1 else 0)
    requires forall i :: 0 <= i < |rest| ==>
      rest[i].sequence == CounterValue(t', streamId, rest[i].partition) + Hits(rest[..i + 1], rest[i].partition)
    ensures var ps := [h] + rest;
      forall i :: 0 <= i < |ps| ==> ps[i].sequence == CounterValue(t, streamId, ps[i].partition) + Hits(ps[..i + 1], ps[i].partition)
    ensures forall p: nat :: Hits([h] + rest, p) == (if p == h.partition then 1 else 0) + Hits(rest, p)
  {
    var ps := [h] + rest;
    assert ps[1..] == rest;
    forall i | 0 <= i < |ps|
      ensures ps[i].sequence == CounterValue(t, streamId, ps[i].partition) + Hits(ps[..i + 1], ps[i].partition)
    {
      assert ps[..i + 1][0] == h;
      assert ps[..i + 1][1..] == rest[..i];
      if i > 0 {
        assert ps[i] == rest[i - 1];
        assert rest[..i - 1 + 1] == rest[..i];
      } else {
        assert rest[..0] == [];
      }
    }
  }

  /** Every published event is in the table under its own key. */
  lemma {:induction false} PublishEachStores(t: Table, f: Faults, sha256: seq<byte> -> Partitioner.Digest,
                                             part: Partitioner.Partitioner, streamId: string,
                                             events: seq<PublishEvent>, now: int)
    requires part.partitionCount > 0
    ensures var r := PublishEach(t, f, sha256, part, streamId, events, now);
      r.outcome.Done? ==> forall i :: 0 <= i < |events| ==>
        var pe := r.outcome.value[i];
        EventKey(streamId, pe.partition, pe.sequence) in r.table
        && r.table[EventKey(streamId, pe.partition, pe.sequence)]
             == EventItem(StoredEvent(streamId, pe.partition, pe.sequence, events[i], now))
    decreases |events|
  {
    var r := PublishEach(t, f, sha256, part, streamId, events, now);
    if |events| > 0 && r.outcome.Done? {
      var e := events[0];
      var partition := Partitioner.Partition(part, sha256, e.key);
      var inc := IncrementSequence(t, f, streamId, partition);
      var s := inc.outcome.value;
      var ek := EventKey(streamId, partition, s);
      var t' := inc.table[ek := EventItem(StoredEvent(streamId, partition, s, e, now))];
      HeadStep(t, f, streamId, partition, e, now);
      PublishEachFrame(t', f, sha256, part, streamId, events[1..], now);
      PublishEachStores(t', f, sha256, part, streamId, events[1..], now);
      assert Unchanged(t', r.table, EventKey(streamId, partition, s));
    }
  }

  /** Publishing keeps the table well formed, on failure too. */
  lemma {:induction false} PublishEachWellFormed(t: Table, f: Faults, sha256: seq<byte> -> Partitioner.Digest,
                                                 part: Partitioner.Partitioner, streamId: string,
                                                 events: seq<PublishEvent>, now: int)
    requires part.partitionCount > 0 && WellFormed(t)
    ensures WellFormed(PublishEach(t, f, sha256, part, streamId, events, now).table)
    decreases |events|
  {
    if |events| > 0 {
      var e := events[0];
      var partition := Partitioner.Partition(part, sha256, e.key);
      var inc := IncrementSequence(t, f, streamId, partition);
      PublishEachTable(t, f, sha256, part, streamId, events, now);
      if inc.table != t {
        OnlyEventsStartWithSeq("", 0, "");
        WellFormedPutOther(t, CounterKey(streamId, partition), CounterItem(CounterValue(t, streamId, partition) + 1));
      }
      if inc.outcome.Done? {
        var s := inc.outcome.value;
        var ek := EventKey(streamId, partition, s);
        if Put(ek) !in f {
          var stored := StoredEvent(streamId, partition, s, e, now);
          WellFormedPutEvent(inc.table, stored);
          PublishEachWellFormed(inc.table[ek := EventItem(stored)], f, sha256, part, streamId, events[1..], now);
        }
      }
    }
  }

  /** The table a publish loop leaves: the increment's table when the first event fails,
      otherwise the table the rest of the loop leaves. */
  lemma PublishEachTable(t: Table, f: Faults, sha256: seq<byte> -> Partitioner.Digest,
                         part: Partitioner.Partitioner, streamId: string, events: seq<PublishEvent>, now: int)
    requires part.partitionCount > 0 && |events| > 0
    ensures var partition := Partitioner.Partition(part, sha256, events[0].key);
      var inc := IncrementSequence(t, f, streamId, partition);
      var r := PublishEach(t, f, sha256, part, streamId, events, now);
      if inc.outcome.Done? && Put(EventKey(streamId, partition, inc.outcome.value)) !in f then
        var s := inc.outcome.value;
        var t' := inc.table[EventKey(streamId, partition, s) := EventItem(StoredEvent(streamId, partition, s, events[0], now))];
        r.table == PublishEach(t', f, sha256, part, streamId, events[1..], now).table
      else r.table == inc.table
  {
  }

  /** Within one publish call, two events of the same partition get increasing
      sequences, so no sequence is handed out twice. */
  lemma PublishEachDistinct(t: Table, f: Faults, sha256: seq<byte> -> Partitioner.Digest,
                            part: Partitioner.Partitioner, streamId: string,
                            events: seq<PublishEvent>, now: int, i: nat, j: nat)
    requires part.partitionCount > 0
    requires var r := PublishEach(t, f, sha256, part, streamId, events, now);
      r.outcome.Done? && i < j < |r.outcome.value| && r.outcome.value[i].partition == r.outcome.value[j].partition
    ensures var ps := PublishEach(t, f, sha256, part, streamId, events, now).outcome.value;
      ps[i].sequence < ps[j].sequence
  {
    PublishEachCounters(t, f, sha256, part, streamId, events, now);
    HitsGrow(PublishEach(t, f, sha256, part, streamId, events, now).outcome.value, i, j);
  }

  /** A completed `publish_events` call is the per-event loop over the stored stream's
      partitioner. */
  lemma PublishEventsRunsEach(t: Table, f: Faults, sha256: seq<byte> -> Partitioner.Digest,
                              streamId: string, events: seq<PublishEvent>, now: int)
    requires PublishEvents(t, f, sha256, streamId, events, now).outcome.Done?
    ensures GetStream(t, f, streamId).Ok? && GetStream(t, f, streamId).value.partitionCount > 0
    ensures PublishEvents(t, f, sha256, streamId, events, now)
      == PublishEach(t, f, sha256, Partitioner.Partitioner(GetStream(t, f, streamId).value.partitionCount),
                     streamId, events, now)
  {
  }

  /** `publish_events` as a whole: one reference per input in input order, each with the
      partition of its key, the call's timestamp, and the next sequence of its partition;
      sequences of one partition increase; each counter advances by its partition's count. */
  lemma PublishEventsSequences(t: Table, f: Faults, sha256: seq<byte> -> Partitioner.Digest,
                               streamId: string, events: seq<PublishEvent>, now: int)
    ensures var r := PublishEvents(t, f, sha256, streamId, events, now);
      r.outcome.Done? ==>
        var count := GetStream(t, f, streamId).value.partitionCount;
        var ps := r.outcome.value;
        && GetStream(t, f, streamId).Ok? && count > 0
        && |ps| == |events|
        && (forall i :: 0 <= i < |ps| ==>
              && ps[i].streamId == streamId && ps[i].key == events[i].key && ps[i].timestamp == now
              && ps[i].partition == Partitioner.Partition(Partitioner.Partitioner(count), sha256, events[i].key)
              && ps[i].sequence == CounterValue(t, streamId, ps[i].partition) + Hits(ps[..i + 1], ps[i].partition))
        && (forall i, j :: 0 <= i < j < |ps| && ps[i].partition == ps[j].partition ==> ps[i].sequence < ps[j].sequence)
        && (forall p: nat :: CounterValue(r.table, streamId, p) == CounterValue(t, streamId, p) + Hits(ps, p))
  {
    var r := PublishEvents(t, f, sha256, streamId, events, now);
    if r.outcome.Done? {
      PublishEventsRunsEach(t, f, sha256, streamId, events, now);
      var part := Partitioner.Partitioner(GetStream(t, f, streamId).value.partitionCount);
      PublishEachCounters(t, f, sha256, part, streamId, events, now);
      forall i, j | 0 <= i < j < |r.outcome.value| && r.outcome.value[i].partition == r.outcome.value[j].partition
        ensures r.outcome.value[i].sequence < r.outcome.value[j].sequence
      {
        PublishEachDistinct(t, f, sha256, part, streamId, events, now, i, j);
      }
    }
  }

  /** After a completed `publish_events` every event is in the table under the key of
      its partition and sequence. */
  lemma PublishEventsStores(t: Table, f: Faults, sha256: seq<byte> -> Partitioner.Digest,
                            streamId: string, events: seq<PublishEvent>, now: int)
    ensures var r := PublishEvents(t, f, sha256, streamId, events, now);
      r.outcome.Done? ==>
        var ps := r.outcome.value;
        forall i :: 0 <= i < |ps| ==>
          EventKey(streamId, ps[i].partition, ps[i].sequence) in r.table
          && r.table[EventKey(streamId, ps[i].partition, ps[i].sequence)]
            == EventItem(StoredEvent(streamId, ps[i].partition, ps[i].sequence, events[i], now))
  {
    var r := PublishEvents(t, f, sha256, streamId, events, now);
    if r.outcome.Done? {
      PublishEventsRunsEach(t, f, sha256, streamId, events, now);
      var part := Partitioner.Partitioner(GetStream(t, f, streamId).value.partitionCount);
      PublishEachStores(t, f, sha256, part, streamId, events, now);
    }
  }

  /** Publishing keeps the table well formed, and writes only counters and new events of
      the stream, whatever fails. */
  lemma PublishEventsFrame(t: Table, f: Faults, sha256: seq<byte> -> Partitioner.Digest,
                           streamId: string, events: seq<PublishEvent>, now: int)
    ensures var r := PublishEvents(t, f, sha256, streamId, events, now);
      && (WellFormed(t) ==> WellFormed(r.table))
      && (forall k: Key :: k.sk != COUNTER && !StartsWith(k.sk, SEQ_PREFIX) ==> Unchanged(t, r.table, k))
      && (forall p: nat, s: u64 :: s <= CounterValue(t, streamId, p) ==> Unchanged(t, r.table, EventKey(streamId, p, s)))
      && (forall other: string, p: nat :: other != streamId ==> Unchanged(t, r.table, CounterKey(other, p)))
      && (forall other: string, p: nat, s: u64 :: other != streamId ==> Unchanged(t, r.table, EventKey(other, p, s)))
  {
    var r := PublishEvents(t, f, sha256, streamId, events, now);
    if GetStream(t, f, streamId).Ok? && GetStream(t, f, streamId).value.partitionCount > 0 {
      var part := Partitioner.Partitioner(GetStream(t, f, streamId).value.partitionCount);
      assert r == PublishEach(t, f, sha256, part, streamId, events, now);
      PublishEachFrame(t, f, sha256, part, streamId, events, now);
      if WellFormed(t) {
        PublishEachWellFormed(t, f, sha256, part, streamId, events, now);
      }
    }
  }

  lemma SamePartitionPrefix(ps: seq<PublishedEvent>, qs: seq<PublishedEvent>, events: seq<PublishEvent>,
                            p: nat, key: string, count: u32, sha256: seq<byte> -> Partitioner.Digest)
    requires count > 0 && |ps| == |events| && 0 < |qs| <= |ps| && qs == ps[..|qs|]
    requires forall j :: 0 <= j < |events| ==> events[j].key == key
    requires forall j :: 0 <= j < |ps| ==>
      ps[j].partition == Partitioner.Partition(Partitioner.Partitioner(count), sha256, events[j].key)
    requires qs[|qs| - 1].partition == p
    ensures forall j :: 0 <= j < |qs| ==> qs[j].partition == p
  {
  }

  /** A new stream's first publish of n events for one key gets sequences 1 to n. */
  lemma FreshStreamSequences(t: Table, f: Faults, sha256: seq<byte> -> Partitioner.Digest,
                             req: CreateStreamRequest, created: int, events: seq<PublishEvent>, now: int, key: string)
    requires CreateStream(t, f, req, created).outcome.Done?
    requires forall i :: 0 <= i < |events| ==> events[i].key == key
    ensures var t' := CreateStream(t, f, req, created).table;
      var r := PublishEvents(t', f, sha256, req.streamId, events, now);
      r.outcome.Done? ==> forall i :: 0 <= i < |events| ==> r.outcome.value[i].sequence == i + 1
  {
    var t' := CreateStream(t, f, req, created).table;
    var r := PublishEvents(t', f, sha256, req.streamId, events, now);
    if r.outcome.Done? {
      PublishEventsSequences(t', f, sha256, req.streamId, events, now);
      var ps := r.outcome.value;
      var count := GetStream(t', f, req.streamId).value.partitionCount;
      assert count == req.partitionCount;
      forall i | 0 <= i < |events|
        ensures ps[i].sequence == i + 1
      {
        var p := ps[i].partition;
        assert p < count;
        assert CounterKey(req.streamId, p) in CounterKeys(req.streamId, 0, req.partitionCount);
        assert CounterValue(t', req.streamId, p) == 0;
        SamePartitionPrefix(ps, ps[..i + 1], events, p, key, count, sha256);
        HitsAll(ps[..i + 1], p);
      }
    }
  }
}
