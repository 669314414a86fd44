/** What a partition read returns, on a well-formed table: events of that partition
    only, above the requested offset, in sequence order, with no sequence skipped up
    to the last one returned; the whole tail when it fits in one page. */
module Reading {
  import opened Wrappers
  import opened Strings
  import opened Numbers
  import opened Keys
  import opened Models
  import opened Store
  import opened Dynamo

  /** An event is read from `sks` exactly when one of those sort keys holds it. */
  lemma {:induction false} EventsAtMembers(t: Table, pk: string, sks: seq<string>, e: Event)
    ensures e in EventsAt(t, pk, sks) <==>
      exists sk :: sk in sks && Key(pk, sk) in t && t[Key(pk, sk)] == EventItem(e)
    decreases |sks|
  {
    if |sks| > 0 {
      EventsAtMembers(t, pk, sks[1..], e);
      assert forall sk :: sk in sks <==> sk == sks[0] || sk in sks[1..];
    }
  }

  /** In a well-formed table the event under `Key(pk, sk)` belongs to the partition of
      `pk` and `sk` is the sort key of its sequence. */
  lemma EventAtKey(t: Table, streamId: string, partition: nat, sk: string)
    requires WellFormed(t)
    requires Key(PartitionPk(streamId, partition), sk) in t && t[Key(PartitionPk(streamId, partition), sk)].EventItem?
    ensures var e := t[Key(PartitionPk(streamId, partition), sk)].event;
      e.streamId == streamId && e.partition == partition && sk == SeqSk(e.sequence)
  {
    var e := t[Key(PartitionPk(streamId, partition), sk)].event;
    PartitionPkInjective(e.streamId, e.partition, streamId, partition);
  }

  /** Sequences strictly increase along `es`. */
  predicate Ascends(es: seq<Event>) {
    forall i, j :: 0 <= i < j < |es| ==> es[i].sequence < es[j].sequence
  }

  /** Reading ascending sort keys of one partition yields strictly ascending sequences. */
  lemma {:induction false} EventsAtAscending(t: Table, streamId: string, partition: nat, sks: seq<string>)
    requires WellFormed(t)
    requires forall i, j :: 0 <= i < j < |sks| ==> Below(sks[i], sks[j])
    ensures Ascends(EventsAt(t, PartitionPk(streamId, partition), sks))
    decreases |sks|
  {
    var pk := PartitionPk(streamId, partition);
    if |sks| > 0 {
      var rest := EventsAt(t, pk, sks[1..]);
      EventsAtAscending(t, streamId, partition, sks[1..]);
      var k := Key(pk, sks[0]);
      if k in t && t[k].EventItem? {
        var e0 := t[k].event;
        assert EventsAt(t, pk, sks) == [e0] + rest;
        EventAtKey(t, streamId, partition, sks[0]);
        forall e | e in rest
          ensures e0.sequence < e.sequence
        {
          EventsAtMembers(t, pk, sks[1..], e);
          var sk :| sk in sks[1..] && Key(pk, sk) in t && t[Key(pk, sk)] == EventItem(e);
          EventAtKey(t, streamId, partition, sk);
          SeqSkOrder(e0.sequence, e.sequence);
        }
        AscendsCons(e0, rest);
      } else {
        assert EventsAt(t, pk, sks) == rest;
      }
    }
  }

  lemma AscendsCons(e0: Event, rest: seq<Event>)
    requires Ascends(rest)
    requires forall e :: e in rest ==> e0.sequence < e.sequence
    ensures Ascends([e0] + rest)
  {
    var r := [e0] + rest;
    forall i, j | 0 <= i < j < |r|
      ensures r[i].sequence < r[j].sequence
    {
      if i == 0 {
        assert r[j] == rest[j - 1];
        assert rest[j - 1] in rest;
      } else {
        assert r[i] == rest[i - 1] && r[j] == rest[j - 1];
      }
    }
  }

  /** The page `read_events` reads: the first `limit` sort keys above `from`. */
  function Page(t: Table, streamId: string, partition: nat, from: u64, limit: nat): (sks: seq<string>)
    ensures |sks| <= limit
    ensures forall i, j :: 0 <= i < j < |sks| ==> Below(sks[i], sks[j])
    ensures forall sk :: sk in sks ==> sk in KeysAbove(t, PartitionPk(streamId, partition), from)
  {
    Take(Ascending(KeysAbove(t, PartitionPk(streamId, partition), from)), limit)
  }

  lemma ReadEventsIsPage(t: Table, f: Faults, streamId: string, partition: u32, from: u64, limit: u32)
    requires ReadEvents(t, f, streamId, partition, from, limit).Ok?
    ensures ReadEvents(t, f, streamId, partition, from, limit).value
      == EventsAt(t, PartitionPk(streamId, partition), Page(t, streamId, partition, from, limit))
  {
  }

  /** Everything `read_events` returns is an event of the requested partition above
      `from`, exactly as stored, and the events come in strictly ascending sequence order;
      in particular the partition's counter item is never returned. */
  lemma ReadEventsSound(t: Table, f: Faults, streamId: string, partition: u32, from: u64, limit: u32)
    requires WellFormed(t)
    ensures var r := ReadEvents(t, f, streamId, partition, from, limit);
      r.Ok? ==>
        && (forall e :: e in r.value ==>
              && e.streamId == streamId && e.partition == partition && from < e.sequence
              && EventKey(streamId, partition, e.sequence) in t
              && t[EventKey(streamId, partition, e.sequence)] == EventItem(e))
        && (forall i, j :: 0 <= i < j < |r.value| ==> r.value[i].sequence < r.value[j].sequence)
  {
    var r := ReadEvents(t, f, streamId, partition, from, limit);
    if r.Ok? {
      var pk := PartitionPk(streamId, partition);
      var page := Page(t, streamId, partition, from, limit);
      ReadEventsIsPage(t, f, streamId, partition, from, limit);
      EventsAtAscending(t, streamId, partition, page);
      forall e | e in r.value
        ensures e.streamId == streamId && e.partition == partition && from < e.sequence
        ensures EventKey(streamId, partition, e.sequence) in t
        ensures t[EventKey(streamId, partition, e.sequence)] == EventItem(e)
      {
        EventsAtMembers(t, pk, page, e);
        var sk :| sk in page && Key(pk, sk) in t && t[Key(pk, sk)] == EventItem(e);
        EventAtKey(t, streamId, partition, sk);
        assert sk in KeysAbove(t, pk, from);
        SeqSkOrder(from, e.sequence);
      }
    }
  }

  /** An event of the partition above `from` that is stored under a sort key in the
      page is returned. */
  lemma PageEventReturned(t: Table, f: Faults, streamId: string, partition: u32, from: u64, limit: u32, s: u64)
    requires WellFormed(t) && ReadEvents(t, f, streamId, partition, from, limit).Ok?
    requires EventKey(streamId, partition, s) in t
    requires SeqSk(s) in Page(t, streamId, partition, from, limit)
    ensures exists e :: e in ReadEvents(t, f, streamId, partition, from, limit).value && e.sequence == s
  {
    var pk := PartitionPk(streamId, partition);
    var k := EventKey(streamId, partition, s);
    assert StartsWith(k.sk, SEQ_PREFIX);
    var e := t[k].event;
    EventKeyInjective(e.streamId, e.partition, e.sequence, streamId, partition, s);
    ReadEventsIsPage(t, f, streamId, partition, from, limit);
    EventsAtMembers(t, pk, Page(t, streamId, partition, from, limit), e);
  }

  /** No gaps: every stored event of the partition between `from` and the last event
      returned is returned too. */
  lemma ReadEventsNoGaps(t: Table, f: Faults, streamId: string, partition: u32, from: u64, limit: u32,
                         i: nat, s: u64)
    requires WellFormed(t)
    requires var r := ReadEvents(t, f, streamId, partition, from, limit);
      r.Ok? && i < |r.value| && from < s <= r.value[i].sequence
    requires EventKey(streamId, partition, s) in t
    ensures exists e :: e in ReadEvents(t, f, streamId, partition, from, limit).value && e.sequence == s
  {
    ReadEventsIsPage(t, f, streamId, partition, from, limit);
    var es := ReadEvents(t, f, streamId, partition, from, limit).value;
    PageNoGaps(t, streamId, partition, from, limit, es, i, s);
    PageEventReturned(t, f, streamId, partition, from, limit, s);
  }

  /** The sort key of a stored sequence between `from` and an event of the page is
      itself in the page. */
  lemma PageNoGaps(t: Table, streamId: string, partition: nat, from: u64, limit: nat,
                   es: seq<Event>, i: nat, s: u64)
    requires WellFormed(t)
    requires es == EventsAt(t, PartitionPk(streamId, partition), Page(t, streamId, partition, from, limit))
    requires i < |es| && from < s <= es[i].sequence
    requires EventKey(streamId, partition, s) in t
    ensures SeqSk(s) in Page(t, streamId, partition, from, limit)
  {
    var page := Page(t, streamId, partition, from, limit);
    assert es[i] in es;
    PageKeyOf(t, streamId, partition, page, es[i]);
    PageCloses(t, PartitionPk(streamId, partition), from, limit, es[i].sequence, s);
  }

  /** Every event read from `sks` sits under the sort key of its own sequence. */
  lemma PageKeyOf(t: Table, streamId: string, partition: nat, sks: seq<string>, e: Event)
    requires WellFormed(t)
    requires e in EventsAt(t, PartitionPk(streamId, partition), sks)
    ensures SeqSk(e.sequence) in sks
  {
    var pk := PartitionPk(streamId, partition);
    EventsAtMembers(t, pk, sks, e);
    var sk :| sk in sks && Key(pk, sk) in t && t[Key(pk, sk)] == EventItem(e);
    EventAtKey(t, streamId, partition, sk);
  }

  /** A stored sequence key between `from` and a key of the page is in the page. */
  lemma PageCloses(t: Table, pk: string, from: u64, limit: nat, last: u64, s: u64)
    requires SeqSk(last) in Take(Ascending(KeysAbove(t, pk, from)), limit)
    requires from < s <= last
    requires Key(pk, SeqSk(s)) in t
    ensures SeqSk(s) in Take(Ascending(KeysAbove(t, pk, from)), limit)
  {
    if s != last {
      var x, y := SeqSk(s), SeqSk(last);
      SeqSkOrder(from, s);
      assert x in KeysAbove(t, pk, from);
      SeqSkOrder(s, last);
      AscendingPrefixCloses(Ascending(KeysAbove(t, pk, from)), limit, x, y);
    }
  }

  /** In a strictly ascending sequence of keys, a key below one in the first `n`
      positions is itself among the first `n`. */
  lemma AscendingPrefixCloses(sks: seq<string>, n: nat, x: string, y: string)
    requires forall i, j :: 0 <= i < j < |sks| ==> Below(sks[i], sks[j])
    requires y in Take(sks, n) && x in sks
    requires Below(x, y)
    ensures x in Take(sks, n)
  {
    var page := Take(sks, n);
    var a :| 0 <= a < |page| && page[a] == y;
    var b :| 0 <= b < |sks| && sks[b] == x;
    assert sks[a] == y;
    if b >= |page| {
      assert Below(sks[a], sks[b]);
      BelowAsymmetric(y, x);
    }
    assert page[b] == x;
  }

  /** When the keys above `from` fit in one page, the read returns every stored event
      of the partition above `from`. */
  lemma ReadEventsComplete(t: Table, f: Faults, streamId: string, partition: u32, from: u64, limit: u32, s: u64)
    requires WellFormed(t)
    requires ReadEvents(t, f, streamId, partition, from, limit).Ok?
    requires |KeysAbove(t, PartitionPk(streamId, partition), from)| <= limit
    requires from < s && EventKey(streamId, partition, s) in t
    ensures exists e :: e in ReadEvents(t, f, streamId, partition, from, limit).value && e.sequence == s
  {
    var pk := PartitionPk(streamId, partition);
    SeqSkOrder(from, s);
    assert SeqSk(s) in KeysAbove(t, pk, from);
    assert SeqSk(s) in Page(t, streamId, partition, from, limit);
    PageEventReturned(t, f, streamId, partition, from, limit, s);
  }

  lemma NonEmptyHasHead<T>(xs: seq<T>)
    ensures xs != [] ==> xs[0] in xs
  {
  }

  /** A read from the last sequence of a partition returns nothing new. */
  lemma ReadFromCounterIsEmpty(t: Table, f: Faults, streamId: string, partition: u32, limit: u32)
    requires WellFormed(t)
    requires CounterValue(t, streamId, partition) <= U64_MAX
    requires forall s: u64 :: EventKey(streamId, partition, s) in t ==> s <= CounterValue(t, streamId, partition)
    ensures var r := ReadEvents(t, f, streamId, partition, CounterValue(t, streamId, partition), limit);
      r.Ok? ==> r.value == []
  {
    var r := ReadEvents(t, f, streamId, partition, CounterValue(t, streamId, partition), limit);
    if r.Ok? {
      ReadEventsSound(t, f, streamId, partition, CounterValue(t, streamId, partition), limit);
      NonEmptyHasHead(r.value);
    }
  }
}
