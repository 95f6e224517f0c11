/** The edge partitioner: rank `r` of `size` ranks takes the `r`-th chunk of
    `ceil(|edges| / size)` consecutive edges. */
module Partitioner {
  import opened Outcomes
  import opened Graphs
  import opened Arith

  function Min(a: nat, b: nat): nat { if a <= b then a else b }

  /** `chunk_size = (|edges| + size - 1) / size`. */
  function ChunkSize(numEdges: nat, size: nat): nat
    requires size >= 1
  {
    (numEdges + size - 1) / size
  }

  /** The chunk is the ceiling of `|edges| / size`: the smallest number of edges per rank
      that lets `size` ranks hold all edges. */
  lemma ChunkIsCeiling(numEdges: nat, size: nat)
    requires size >= 1
    ensures numEdges <= ChunkSize(numEdges, size) * size
    ensures ChunkSize(numEdges, size) == 0 || (ChunkSize(numEdges, size) - 1) * size < numEdges
    ensures ChunkSize(numEdges, size) <= numEdges
    ensures numEdges > 0 <==> ChunkSize(numEdges, size) > 0
  {
    var n := numEdges + size - 1;
    var q := n / size;
    assert n == q * size + n % size;
    MulMono(numEdges + 1, q, size);
    MulMono(1, numEdges, size - 1);
  }

  // ---------------------------------------------------------------------------
  // The partitioner as written: no clamp on `start`.
  // ---------------------------------------------------------------------------

  /** `edges[start..end]` with `start = rank * chunk` and `end = min(start + chunk, |edges|)`.
      The slice panics in Rust (and the iterator range is undefined in C++) when
      `start > end`, which happens exactly when `start > |edges|`. */
  function PartitionAsWritten(edges: seq<Edge>, rank: nat, size: nat): (r: Result<seq<Edge>>)
    requires size >= 1
    ensures r.Ok? <==> rank * ChunkSize(|edges|, size) <= |edges|
    ensures r.Err? ==> r.fault.SliceOutOfRange? && r.fault.end == |edges| < r.fault.start
  {
    var chunk := ChunkSize(|edges|, size);
    var start := rank * chunk;
    var end := Min(start + chunk, |edges|);
    if start <= end then Ok(edges[start..end]) else Err(SliceOutOfRange(start, end))
  }

  /** E=3, P=5: chunk 1, rank 4 starts at index 4 of a 3-edge list and faults,
      while rank 3 (start == |edges|) still gets an empty slice. */
  lemma AsWrittenFaultsPastTail(edges: seq<Edge>)
    requires |edges| == 3
    ensures ChunkSize(3, 5) == 1
    ensures PartitionAsWritten(edges, 3, 5) == Ok([])
    ensures PartitionAsWritten(edges, 4, 5) == Err(SliceOutOfRange(4, 3))
  {
    assert ChunkSize(|edges|, 5) == 7 / 5 == 1;
    assert PartitionAsWritten(edges, 3, 5) == Ok(edges[3..3]);
    assert edges[3..3] == [];
  }

  // ---------------------------------------------------------------------------
  // The clamped partitioner: `start := min(rank * chunk, |edges|)`.
  // The index arithmetic is stated for an arbitrary chunk; the partitioner
  // instantiates it with `ChunkSize(|edges|, size)`.
  // ---------------------------------------------------------------------------

  /** First index owned by `rank` when each rank takes `chunk` edges. */
  function Lo(numEdges: nat, rank: nat, chunk: nat): nat
  {
    Min(rank * chunk, numEdges)
  }

  /** One past the last index owned by `rank`. */
  function Hi(numEdges: nat, rank: nat, chunk: nat): nat
  {
    Min(Lo(numEdges, rank, chunk) + chunk, numEdges)
  }

  /** Number of edges owned by `rank`. */
  function PartSize(numEdges: nat, rank: nat, chunk: nat): nat
  {
    Hi(numEdges, rank, chunk) - Lo(numEdges, rank, chunk)
  }

  /** The clamped partition: never faults, agrees with the source wherever the source
      is defined, and is empty for ranks past the tail. */
  function Partition(edges: seq<Edge>, rank: nat, size: nat): (part: seq<Edge>)
    requires size >= 1
    ensures |part| <= ChunkSize(|edges|, size)
    ensures Lo(|edges|, rank, ChunkSize(|edges|, size)) + |part| <= |edges|
  {
    var chunk := ChunkSize(|edges|, size);
    edges[Lo(|edges|, rank, chunk)..Hi(|edges|, rank, chunk)]
  }

  /** The clamp changes nothing where the source is defined, and gives the ranks past
      the tail (including a rank starting exactly at the end) an empty partition. */
  lemma ClampAgreesWithSource(edges: seq<Edge>, rank: nat, size: nat)
    requires size >= 1
    ensures rank * ChunkSize(|edges|, size) <= |edges| ==>
              PartitionAsWritten(edges, rank, size) == Ok(Partition(edges, rank, size))
    ensures rank * ChunkSize(|edges|, size) >= |edges| ==> Partition(edges, rank, size) == []
  {
  }

  /** A partition is a contiguous run of the edge list, starting at its rank's first index. */
  lemma PartitionElements(edges: seq<Edge>, rank: nat, size: nat)
    requires size >= 1
    ensures forall i :: 0 <= i < |Partition(edges, rank, size)| ==>
              Partition(edges, rank, size)[i] == edges[Lo(|edges|, rank, ChunkSize(|edges|, size)) + i]
  {
  }

  /** The length of a partition is the number of indices its rank owns. */
  lemma PartitionLength(edges: seq<Edge>, rank: nat, size: nat)
    requires size >= 1
    ensures |Partition(edges, rank, size)| == PartSize(|edges|, rank, ChunkSize(|edges|, size))
  {
  }

  /** The partitions of ranks `0 .. k-1`, concatenated in rank order. */
  function Assembled(edges: seq<Edge>, size: nat, k: nat): seq<Edge>
    requires size >= 1
  {
    if k == 0 then [] else Assembled(edges, size, k - 1) + Partition(edges, k - 1, size)
  }

  lemma {:induction false} AssembledPrefix(edges: seq<Edge>, size: nat, chunk: nat, k: nat)
    requires size >= 1 && chunk == ChunkSize(|edges|, size)
    ensures Assembled(edges, size, k) == edges[..Min(k * chunk, |edges|)]
  {
    if k > 0 {
      AssembledPrefix(edges, size, chunk, k - 1);
      var a, b := Lo(|edges|, k - 1, chunk), Hi(|edges|, k - 1, chunk);
      assert (k - 1) * chunk + chunk == k * chunk;
      assert a == Min((k - 1) * chunk, |edges|);
      assert b == Min(k * chunk, |edges|);
      assert Partition(edges, k - 1, size) == edges[a..b];
      assert edges[..a] + edges[a..b] == edges[..b];
    }
  }

  /** Coverage: the partitions of ranks `0 .. size-1`, concatenated in rank order,
      are exactly the edge list. */
  lemma PartitionsCoverEdges(edges: seq<Edge>, size: nat)
    requires size >= 1
    ensures Assembled(edges, size, size) == edges
  {
    var chunk := ChunkSize(|edges|, size);
    ChunkIsCeiling(|edges|, size);
    AssembledPrefix(edges, size, chunk, size);
    assert Min(size * chunk, |edges|) == |edges|;
    assert edges[..|edges|] == edges;
  }

  /** Index `i` lies in the partition of `rank`. */
  ghost predicate Owns(numEdges: nat, chunk: nat, rank: nat, i: nat)
  {
    Lo(numEdges, rank, chunk) <= i < Hi(numEdges, rank, chunk)
  }

  /** The rank that owns index `i`. */
  function Owner(numEdges: nat, size: nat, i: nat): nat
    requires size >= 1 && i < numEdges
  {
    ChunkIsCeiling(numEdges, size);
    i / ChunkSize(numEdges, size)
  }

  /** For a positive chunk, index `i` below the edge count is owned by rank `i / chunk` alone. */
  lemma OwnedByQuotient(numEdges: nat, chunk: nat, i: nat)
    requires chunk > 0 && i < numEdges
    ensures Owns(numEdges, chunk, i / chunk, i)
    ensures forall r: nat :: Owns(numEdges, chunk, r, i) ==> r == i / chunk
  {
    var q := i / chunk;
    assert i == q * chunk + i % chunk;
    assert q * chunk <= i < q * chunk + chunk;
    forall r: nat | Owns(numEdges, chunk, r, i)
      ensures r == q
    {
      assert r * chunk <= i < r * chunk + chunk;
      MulMono(r + 1, q, chunk);
      MulMono(q + 1, r, chunk);
      assert (r + 1) * chunk == r * chunk + chunk;
      assert (q + 1) * chunk == q * chunk + chunk;
    }
  }

  /** Each edge index lands in exactly one rank's partition, and that rank is below `size`. */
  lemma EachIndexHasOneOwner(numEdges: nat, size: nat, i: nat)
    requires size >= 1 && i < numEdges
    ensures Owner(numEdges, size, i) < size
    ensures Owns(numEdges, ChunkSize(numEdges, size), Owner(numEdges, size, i), i)
    ensures forall r: nat :: Owns(numEdges, ChunkSize(numEdges, size), r, i) ==> r == Owner(numEdges, size, i)
  {
    ChunkIsCeiling(numEdges, size);
    var c := ChunkSize(numEdges, size);
    OwnedByQuotient(numEdges, c, i);
    var q := i / c;
    assert q * c <= i;
    MulMono(size, q, c);
  }

  /** Every rank owns the same number of edges. */
  ghost predicate Balanced(numEdges: nat, size: nat)
    requires size >= 1
  {
    var c := ChunkSize(numEdges, size);
    forall r :: 0 <= r < size ==> PartSize(numEdges, r, c) == PartSize(numEdges, 0, c)
  }

  /** When `size` divides the edge count, chunks are exact and every rank owns a full chunk. */
  lemma ExactChunks(numEdges: nat, size: nat)
    requires size >= 1 && numEdges % size == 0
    ensures ChunkSize(numEdges, size) * size == numEdges
    ensures forall r :: 0 <= r < size ==>
              PartSize(numEdges, r, ChunkSize(numEdges, size)) == ChunkSize(numEdges, size)
  {
    var q := numEdges / size;
    assert numEdges == q * size;
    DivUnique(numEdges + size - 1, size, q, size - 1);
    forall r | 0 <= r < size
      ensures PartSize(numEdges, r, q) == q
    {
      MulMono(r, size - 1, q);
      assert (size - 1) * q + q == numEdges;
    }
  }

  /** With a chunk that over-covers the edge list, rank 0 holds a full chunk
      and the last rank holds less. */
  lemma LastRankShort(numEdges: nat, size: nat, chunk: nat)
    requires size >= 1 && 0 < chunk <= numEdges < chunk * size
    ensures PartSize(numEdges, 0, chunk) == chunk
    ensures PartSize(numEdges, size - 1, chunk) < chunk
  {
    var last := (size - 1) * chunk;
    assert last + chunk == chunk * size;
    assert Lo(numEdges, size - 1, chunk) == Min(last, numEdges);
  }

  /** The partitions are balanced exactly when `size` divides the edge count. */
  lemma BalancedIffDivisible(numEdges: nat, size: nat)
    requires size >= 1
    ensures Balanced(numEdges, size) <==> numEdges % size == 0
  {
    if numEdges % size == 0 {
      ExactChunks(numEdges, size);
    } else {
      ChunkIsCeiling(numEdges, size);
      var c := ChunkSize(numEdges, size);
      ExactMultiple(numEdges, size, c);
      LastRankShort(numEdges, size, c);
    }
  }

  /** E=10, P=2: chunk 5, partitions [0,5), [5,10). */
  lemma TenEdgesTwoRanks(edges: seq<Edge>)
    requires |edges| == 10
    ensures Partition(edges, 0, 2) == edges[0..5]
    ensures Partition(edges, 1, 2) == edges[5..10]
    ensures ChunkSize(10, 2) == 5
  {
    assert ChunkSize(10, 2) == 11 / 2 == 5;
  }

  /** E=7, P=3: chunk 3, partitions [0,3), [3,6), [6,7). */
  lemma SevenEdgesThreeRanks(edges: seq<Edge>)
    requires |edges| == 7
    ensures Partition(edges, 0, 3) == edges[0..3]
    ensures Partition(edges, 1, 3) == edges[3..6]
    ensures Partition(edges, 2, 3) == edges[6..7]
    ensures ChunkSize(7, 3) == 3
  {
    assert ChunkSize(7, 3) == 9 / 3 == 3;
  }

  /** E=3, P=5: chunk 1, partitions [0,1), [1,2), [2,3), [3,3), [3,3). */
  lemma ThreeEdgesFiveRanks(edges: seq<Edge>)
    requires |edges| == 3
    ensures ChunkSize(3, 5) == 1
    ensures Partition(edges, 0, 5) == edges[0..1]
    ensures Partition(edges, 1, 5) == edges[1..2]
    ensures Partition(edges, 2, 5) == edges[2..3]
    ensures Partition(edges, 3, 5) == []
    ensures Partition(edges, 4, 5) == []
  {
    assert ChunkSize(3, 5) == 7 / 5 == 1;
    assert Partition(edges, 0, 5) == edges[0..1];
    assert Partition(edges, 1, 5) == edges[1..2];
    assert Partition(edges, 2, 5) == edges[2..3];
    assert Partition(edges, 3, 5) == edges[3..3];
    assert Partition(edges, 4, 5) == edges[3..3];
  }
}
