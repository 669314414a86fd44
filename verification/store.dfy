/** The key-value table as a value: a finite map from keys to typed items, plus a
    description of which store calls fail. Every store call of the Lambdas is one of
    the `Call`s below; a call listed in the fault map fails with that message. */
module Store {
  import opened Strings
  import opened Numbers
  import opened Keys
  import opened Models
  import opened Errors

  /** The item kinds of the table; converting an item to a record of another kind
      fails, which is how the code treats an item that does not deserialise. */
  datatype Item =
    | StreamItem(stream: Stream)
    | SubscriptionItem(subscription: Subscription)
    /** The store's numbers are not bounded by `u64`; reading one back is. */
    | CounterItem(sequence: nat)
    | EventItem(event: Event)
    | OffsetItem(offset: u64, committedAt: int)
    | CompactedItem(compacted: CompactedEvent)

  type Table = map<Key, Item>

  datatype Call =
    | Get(key: Key)
    | Put(key: Key)
    | Update(key: Key)
    | Delete(key: Key)
    | Query(pk: string)
    | Scan

  /** The calls that fail, each with the message of the error the store returns. */
  type Faults = map<Call, string>

  /** How an operation ends: with a value, with an `Error`, or with a panic. */
  datatype Outcome<+T> = Done(value: T) | Failed(error: Error) | Panicked(message: string)

  /** The table after an operation (writes made before a failure stay) and its outcome. */
  datatype Step<+T> = Step(table: Table, outcome: Outcome<T>)

  /** The error of a put guarded by `attribute_not_exists(PK)` that the store rejected with
      `message`: a message naming the failed condition is the conflict, anything else a
      database error. When the item exists, the store's message is
      "ConditionalCheckFailedException: ...", so the result is the conflict. */
  function ConditionalPutError(message: string, conflict: Error): (e: Error)
    ensures Contains(message, "ConditionalCheckFailed") ==> e == conflict
    ensures !Contains(message, "ConditionalCheckFailed") ==> e == Database(message)
  {
    if Contains(message, "ConditionalCheckFailed") then conflict else Database(message)
  }

  /** Key `k` holds the same thing (or nothing) in both tables. */
  predicate Unchanged(t: Table, t': Table, k: Key) {
    (k in t <==> k in t') && (k in t ==> t[k] == t'[k])
  }

  /** The value of a partition counter as the table holds it, 0 when there is none. */
  function CounterValue(t: Table, streamId: string, partition: nat): nat {
    var k := CounterKey(streamId, partition);
    if k in t && t[k].CounterItem? then t[k].sequence else 0
  }

  /** Events are exactly the items under event sort keys, and each sits under the key
      its stream, partition and sequence name. The operations preserve this. */
  predicate WellFormed(t: Table) {
    forall k :: k in t ==>
      && (t[k].EventItem? <==> StartsWith(k.sk, SEQ_PREFIX))
      && (t[k].EventItem? ==> k == EventKey(t[k].event.streamId, t[k].event.partition, t[k].event.sequence))
  }

  /** Writing an item other than an event under a key that is not an event key keeps a
      table well formed. */
  lemma WellFormedPutOther(t: Table, k: Key, item: Item)
    requires WellFormed(t) && !StartsWith(k.sk, SEQ_PREFIX) && !item.EventItem?
    ensures WellFormed(t[k := item])
  {
  }

  /** Writing an event under its own key keeps a table well formed. */
  lemma WellFormedPutEvent(t: Table, e: Event)
    requires WellFormed(t)
    ensures WellFormed(t[EventKey(e.streamId, e.partition, e.sequence) := EventItem(e)])
  {
    assert StartsWith(SeqSk(e.sequence), SEQ_PREFIX);
  }
}
