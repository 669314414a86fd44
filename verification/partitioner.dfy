/** Key-to-partition assignment: the big-endian value of the first four bytes of the
    SHA-256 digest of the key's UTF-8 bytes, modulo the partition count. SHA-256 itself
    is a parameter: any function from bytes to 32-byte digests. */
module Partitioner {
  import opened Wrappers
  import opened Numbers
  import Utf8

  type Digest = d: seq<byte> | |d| == 32 witness seq(32, _ => 0)

  /** A partitioner exists only with a positive count; see `New`. */
  datatype Partitioner = Partitioner(partitionCount: u32)

  const ZERO_PARTITIONS_PANIC := "partition_count must be > 0"

  /** The constructor: a count of zero is a panic (here `Err` with the panic message). */
  function New(partitionCount: u32): (r: Result<Partitioner, string>)
    ensures r.Ok? <==> partitionCount > 0
    ensures r.Ok? ==> r.value.partitionCount == partitionCount
    ensures r.Err? ==> r.error == ZERO_PARTITIONS_PANIC
  {
    if partitionCount > 0 then Ok(Partitioner(partitionCount)) else Err(ZERO_PARTITIONS_PANIC)
  }

  /** `u32::from_be_bytes`: the first byte is the most significant. */
  function FromBeBytes(b: seq<byte>): (n: u32)
    requires |b| == 4
  {
    var b0: int, b1: int, b2: int, b3: int := b[0], b[1], b[2], b[3];
    b0 * 0x100_0000 + b1 * 0x1_0000 + b2 * 0x100 + b3
  }

  /** `u32::to_be_bytes`, the inverse of `FromBeBytes`. */
  function ToBeBytes(n: u32): (b: seq<byte>)
    ensures |b| == 4
  {
    var r0 := n % 0x100_0000;
    var r1 := r0 % 0x1_0000;
    [n / 0x100_0000, r0 / 0x1_0000, r1 / 0x100, r1 % 0x100]
  }

  lemma BeBytesRoundTrip(n: u32)
    ensures FromBeBytes(ToBeBytes(n)) == n
  {
  }

  lemma BeBytesRoundTripBytes(b: seq<byte>)
    requires |b| == 4
    ensures ToBeBytes(FromBeBytes(b)) == b
  {
    var b0: int, b1: int, b2: int, b3: int := b[0], b[1], b[2], b[3];
    var n := FromBeBytes(b);
    var r1 := b2 * 0x100 + b3;
    var r0 := b1 * 0x1_0000 + r1;
    assert n == b0 * 0x100_0000 + r0 && 0 <= r0 < 0x100_0000;
    assert n / 0x100_0000 == b0 && n % 0x100_0000 == r0;
    assert r0 / 0x1_0000 == b1 && r0 % 0x1_0000 == r1;
    assert r1 / 0x100 == b2 && r1 % 0x100 == b3;
  }

  /** The partition of a key. */
  function Partition(p: Partitioner, sha256: seq<byte> -> Digest, key: string): (r: u32)
    requires p.partitionCount > 0
    ensures r < p.partitionCount
    ensures r == FromBeBytes(sha256(Utf8.Encode(key))[..4]) % p.partitionCount
  {
    var digest := sha256(Utf8.Encode(key));
    FromBeBytes(digest[..4]) % p.partitionCount
  }

  /** The count a partitioner was built with. */
  function PartitionCount(p: Partitioner): u32 {
    p.partitionCount
  }

  /** A key's partition depends on the key only through the head of its digest: keys whose
      digests agree in the first four bytes (equal keys above all) share a partition. */
  lemma SameDigestHeadSamePartition(p: Partitioner, sha256: seq<byte> -> Digest, a: string, b: string)
    requires p.partitionCount > 0
    requires sha256(Utf8.Encode(a))[..4] == sha256(Utf8.Encode(b))[..4]
    ensures Partition(p, sha256, a) == Partition(p, sha256, b)
  {
  }

  /** Every value below the count is reachable: a digest whose head is the value itself
      lands in that partition, so no partition is excluded by the arithmetic. */
  lemma EveryPartitionReachable(p: Partitioner, sha256: seq<byte> -> Digest, key: string, q: u32)
    requires p.partitionCount > 0 && q < p.partitionCount
    requires sha256(Utf8.Encode(key))[..4] == ToBeBytes(q)
    ensures Partition(p, sha256, key) == q
  {
    BeBytesRoundTrip(q);
    var h := FromBeBytes(sha256(Utf8.Encode(key))[..4]);
    assert h == q;
    SmallRemainder(h, p.partitionCount);
  }

  lemma SmallRemainder(a: int, c: int)
    requires 0 <= a < c
    ensures a % c == a
  {
  }

  /** A partitioner built by `New` reports its constructor argument. */
  lemma NewPartitionCount(n: u32)
    requires n > 0
    ensures New(n).Ok? && PartitionCount(New(n).value) == n
  {
  }
}
