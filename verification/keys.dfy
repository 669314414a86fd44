/** The single-table layout: every item lives under a partition key (PK) and a sort key
    (SK) built by string formatting from the ids it belongs to.

      PK                          SK                Item
      STREAM#{id}                 META              stream metadata
      STREAM#{id}                 SUB#{sub}         subscription
      STREAM#{id}#P{n}            COUNTER           sequence counter of partition n
      STREAM#{id}#P{n}            SEQ#{seq:020}     event
      STREAM#{id}#SUB#{sub}       OFFSET#P{n}       consumer offset
      STREAM#{id}#COMPACT         KEY#{key}         compacted state of one key */
module Keys {
  import opened Strings
  import opened Numbers

  datatype Key = Key(pk: string, sk: string)

  const META := "META"
  const COUNTER := "COUNTER"
  const SEQ_PREFIX := "SEQ#"
  const SEQ_WIDTH: nat := 20

  function StreamPk(streamId: string): string {
    "STREAM#" + streamId
  }

  function PartitionPk(streamId: string, partition: nat): string {
    "STREAM#" + streamId + "#P" + Decimal(partition)
  }

  function SubscriptionPk(streamId: string, subscriptionId: string): string {
    "STREAM#" + streamId + "#SUB#" + subscriptionId
  }

  function CompactPk(streamId: string): string {
    "STREAM#" + streamId + "#COMPACT"
  }

  /** `SEQ#` and the sequence zero-padded to 20 digits, the width of the largest `u64`. */
  function SeqSk(sequence: u64): string {
    SEQ_PREFIX + Padded(sequence, SEQ_WIDTH)
  }

  function SubSk(subscriptionId: string): string {
    "SUB#" + subscriptionId
  }

  function OffsetSk(partition: nat): string {
    "OFFSET#P" + Decimal(partition)
  }

  function KeySk(key: string): string {
    "KEY#" + key
  }

  function MetaKey(streamId: string): Key {
    Key(StreamPk(streamId), META)
  }

  function SubscriptionKey(streamId: string, subscriptionId: string): Key {
    Key(StreamPk(streamId), SubSk(subscriptionId))
  }

  function CounterKey(streamId: string, partition: nat): Key {
    Key(PartitionPk(streamId, partition), COUNTER)
  }

  function EventKey(streamId: string, partition: nat, sequence: u64): Key {
    Key(PartitionPk(streamId, partition), SeqSk(sequence))
  }

  function OffsetKey(streamId: string, subscriptionId: string, partition: nat): Key {
    Key(SubscriptionPk(streamId, subscriptionId), OffsetSk(partition))
  }

  function CompactKey(streamId: string, key: string): Key {
    Key(CompactPk(streamId), KeySk(key))
  }

  /** The sort key of an event orders events exactly as their sequences. */
  lemma SeqSkOrder(a: u64, b: u64)
    ensures Below(SeqSk(a), SeqSk(b)) <==> a < b
  {
    U64FitsTwentyDigits();
    BelowCommonPrefix(SEQ_PREFIX, Padded(a, SEQ_WIDTH), Padded(b, SEQ_WIDTH));
    PaddedOrder(a, b, SEQ_WIDTH);
  }

  /** Different sequences get different sort keys. */
  lemma SeqSkInjective(a: u64, b: u64)
    requires SeqSk(a) == SeqSk(b)
    ensures a == b
  {
    U64FitsTwentyDigits();
    assert Padded(a, SEQ_WIDTH) == SeqSk(a)[4..] == SeqSk(b)[4..] == Padded(b, SEQ_WIDTH);
    PaddedInjective(a, b, SEQ_WIDTH);
  }

  /** The counter of a partition sorts before all of its events, so a range read
      above any event sort key never returns it. */
  lemma CounterBelowEvents(sequence: u64)
    ensures Below(COUNTER, SeqSk(sequence))
  {
    assert COUNTER[0] == 'C' && SeqSk(sequence)[0] == 'S';
  }

  /** Only event sort keys start with `SEQ#`. */
  lemma OnlyEventsStartWithSeq(sub: string, partition: nat, key: string)
    ensures !StartsWith(META, SEQ_PREFIX) && !StartsWith(COUNTER, SEQ_PREFIX)
    ensures !StartsWith(SubSk(sub), SEQ_PREFIX) && !StartsWith(OffsetSk(partition), SEQ_PREFIX)
    ensures !StartsWith(KeySk(key), SEQ_PREFIX)
  {
    assert META[0] == 'M' && COUNTER[0] == 'C';
    assert SubSk(sub)[1] == 'U';
    assert OffsetSk(partition)[0] == 'O';
    assert KeySk(key)[0] == 'K';
  }

  lemma DecimalInjective(a: nat, b: nat)
    requires Decimal(a) == Decimal(b)
    ensures a == b
  {
    DecimalDigits(a);
    DecimalDigits(b);
  }

  /** The number of decimal digits at the end of a string. */
  function TrailingDigits(s: string): (n: nat)
    ensures n <= |s|
  {
    if |s| > 0 && IsDigit(s[|s| - 1]) then 1 + TrailingDigits(s[..|s| - 1]) else 0
  }

  lemma {:induction false} TrailingDigitsAfterMarker(x: string, d: string)
    requires AllDigits(d)
    ensures TrailingDigits(x + "#P" + d) == |d|
    decreases |d|
  {
    var s := x + "#P" + d;
    if |d| > 0 {
      assert s[..|s| - 1] == x + "#P" + d[..|d| - 1];
      TrailingDigitsAfterMarker(x, d[..|d| - 1]);
    } else {
      assert s[|s| - 1] == 'P';
    }
  }

  /** A string that ends in `#P` and digits splits there in one way only, because
      digits contain no `P`. */
  lemma SplitBeforeDigits(x: string, d: string, y: string, e: string)
    requires AllDigits(d) && AllDigits(e)
    requires x + "#P" + d == y + "#P" + e
    ensures x == y && d == e
  {
    var s := x + "#P" + d;
    TrailingDigitsAfterMarker(x, d);
    TrailingDigitsAfterMarker(y, e);
    assert d == s[|s| - |d|..] == e;
    assert x == s[..|x|] == y;
  }

  /** Partition keys are injective: no two (stream, partition) pairs share a PK, so one
      partition's counter and events never mix with another's. */
  lemma PartitionPkInjective(a: string, p: nat, b: string, q: nat)
    requires PartitionPk(a, p) == PartitionPk(b, q)
    ensures a == b && p == q
  {
    DecimalDigits(p);
    DecimalDigits(q);
    assert PartitionPk(a, p) == ("STREAM#" + a) + "#P" + Decimal(p);
    assert PartitionPk(b, q) == ("STREAM#" + b) + "#P" + Decimal(q);
    SplitBeforeDigits("STREAM#" + a, Decimal(p), "STREAM#" + b, Decimal(q));
    DecimalInjective(p, q);
    assert a == ("STREAM#" + a)[7..];
  }

  lemma EventKeyInjective(a: string, p: nat, m: u64, b: string, q: nat, n: u64)
    requires EventKey(a, p, m) == EventKey(b, q, n)
    ensures a == b && p == q && m == n
  {
    PartitionPkInjective(a, p, b, q);
    SeqSkInjective(m, n);
  }

  /** Offset keys are not injective once ids contain `#SUB#`: two different
      subscriptions can share the offset rows of a partition. */
  lemma OffsetKeyCollision()
    ensures OffsetKey("a", "b#SUB#c", 0) == OffsetKey("a#SUB#b", "c", 0)
  {
  }

  /** A subscription's offset rows for different partitions have different keys. */
  lemma OffsetSkInjective(p: nat, q: nat)
    requires OffsetSk(p) == OffsetSk(q)
    ensures p == q
  {
    assert Decimal(p) == OffsetSk(p)[8..] == OffsetSk(q)[8..] == Decimal(q);
    DecimalInjective(p, q);
  }

  /** Compacted rows of different (stream, key) pairs have different keys. */
  lemma CompactKeyInjective(a: string, x: string, b: string, y: string)
    requires CompactKey(a, x) == CompactKey(b, y)
    ensures a == b && x == y
  {
    var pa := CompactPk(a);
    assert a == pa[7..|pa| - 8];
    assert x == KeySk(x)[4..] == KeySk(y)[4..] == y;
  }

  /** A subscription's offset rows never share the PK of its stream's own rows. */
  lemma SubscriptionPkNotStreamPk(streamId: string, subscriptionId: string)
    ensures SubscriptionPk(streamId, subscriptionId) != StreamPk(streamId)
  {
    assert |SubscriptionPk(streamId, subscriptionId)| > |StreamPk(streamId)|;
  }
}
