/** The per-rank work after replication: the placeholder computation over the rank's
    partition, and the two collective exchanges over the local result vectors. */
module Aggregation {
  import opened Outcomes
  import opened Graphs
  import opened Arith
  import opened Collectives
  import opened Partitioner

  /** The per-edge result of the placeholder computation (`1.0`). */
  const Placeholder: real := 1.0

  /** One placeholder result per edge of the local partition. */
  function LocalResults(partition: seq<Edge>): (results: seq<real>)
    ensures |results| == |partition|
    ensures forall i :: 0 <= i < |results| ==> results[i] == Placeholder
  {
    seq(|partition|, _ => Placeholder)
  }

  /** A freshly allocated receive buffer of `n` zeros. */
  function Zeros(n: nat): seq<real>
  {
    seq(n, _ => 0.0)
  }

  /** `gather_results`, as seen by rank `rank` when rank `k` contributes `sends[k]`:
      the receive buffer holds `local_len * size` zeros and each rank expects `local_len`
      elements from every rank. The call is well formed exactly when every rank's
      vector has this rank's length, and then the buffer holds the rank-ordered
      concatenation. */
  function GatherResults(sends: seq<seq<real>>, rank: nat): (r: Result<seq<real>>)
    requires rank < |sends|
    ensures r.Ok? <==> EqualLengths(sends, |sends[rank]|)
    ensures r.Err? ==> r.fault == CountMismatch
    ensures r.Ok? ==> |r.value| == |sends[rank]| * |sends|
    ensures r.Ok? ==> r.value == Concat(sends)
  {
    var len := |sends[rank]|;
    var r := AllGatherInto(sends, len, Zeros(len * |sends|));
    if r.Ok? then
      ConcatUniform(sends, len);
      assert r.value == Concat(sends);
      r
    else
      r
  }

  /** The reduce benchmark, as seen by rank `rank`: the receive buffer is over-allocated
      to `local_len * size` zeros, the sum covers only `local_len` elements, so the first
      `local_len` slots hold the element-wise sums over all ranks and the rest stay zero. */
  function ReduceBenchmark(sends: seq<seq<real>>, rank: nat): (r: Result<seq<real>>)
    requires rank < |sends|
    ensures r.Ok? <==> EqualLengths(sends, |sends[rank]|)
    ensures r.Err? ==> r.fault == CountMismatch
    ensures r.Ok? ==> |r.value| == |sends[rank]| * |sends|
    ensures r.Ok? ==> forall i :: 0 <= i < |sends[rank]| ==> i < |r.value| && r.value[i] == SumOver(sends, i)
    ensures r.Ok? ==> forall i :: |sends[rank]| <= i < |r.value| ==> r.value[i] == 0.0
  {
    var len := |sends[rank]|;
    MulMono(1, |sends|, len);
    AllReduceSumInto(sends, len, Zeros(len * |sends|))
  }

  /** Summing the placeholder over every rank gives the number of ranks. */
  lemma {:induction false} SumOfPlaceholders(sends: seq<seq<real>>, i: nat)
    requires forall k :: 0 <= k < |sends| ==> i < |sends[k]| && sends[k][i] == Placeholder
    ensures SumOver(sends, i) == |sends| as real
  {
    if |sends| > 0 {
      var n := |sends| - 1;
      assert forall k :: 0 <= k < n ==> sends[..n][k] == sends[k];
      SumOfPlaceholders(sends[..n], i);
    }
  }

  /** The local result vectors of ranks `0 .. size-1`. */
  function LocalVectors(edges: seq<Edge>, size: nat): (vs: seq<seq<real>>)
    requires size >= 1
    ensures |vs| == size
  {
    seq(size, r requires 0 <= r < size => LocalResults(Partition(edges, r, size)))
  }

  /** Every local vector has the same length exactly when the partitions are balanced. */
  lemma EqualLengthsIffBalanced(edges: seq<Edge>, size: nat, rank: nat)
    requires size >= 1 && rank < size
    ensures EqualLengths(LocalVectors(edges, size), |LocalVectors(edges, size)[rank]|)
            <==> Balanced(|edges|, size)
  {
    var vs := LocalVectors(edges, size);
    var c := ChunkSize(|edges|, size);
    forall r | 0 <= r < size
      ensures |vs[r]| == PartSize(|edges|, r, c)
    {
      PartitionLength(edges, r, size);
    }
  }

  /** Gather over the partitions succeeds exactly when `size` divides the edge count, and
      then every rank receives one placeholder per edge of the graph. */
  lemma GatherOverPartitions(edges: seq<Edge>, size: nat, rank: nat)
    requires size >= 1 && rank < size
    ensures GatherResults(LocalVectors(edges, size), rank).Ok? <==> |edges| % size == 0
    ensures GatherResults(LocalVectors(edges, size), rank).Ok? ==>
              GatherResults(LocalVectors(edges, size), rank).value == seq(|edges|, _ => Placeholder)
  {
    var vs := LocalVectors(edges, size);
    EqualLengthsIffBalanced(edges, size, rank);
    BalancedIffDivisible(|edges|, size);
    if |edges| % size == 0 {
      ExactChunks(|edges|, size);
      PartitionLength(edges, rank, size);
      var g := GatherResults(vs, rank).value;
      ConcatConstant(vs, Placeholder);
      assert g == seq(|edges|, _ => Placeholder);
    }
  }

  /** Reduce over the partitions succeeds exactly when `size` divides the edge count; then
      the first `|edges| / size` slots hold `size` and the rest of the `|edges|`-long
      buffer stays zero. */
  lemma ReduceOverPartitions(edges: seq<Edge>, size: nat, rank: nat)
    requires size >= 1 && rank < size
    ensures ReduceBenchmark(LocalVectors(edges, size), rank).Ok? <==> |edges| % size == 0
    ensures ReduceBenchmark(LocalVectors(edges, size), rank).Ok? ==>
              ReduceBenchmark(LocalVectors(edges, size), rank).value
              == seq(|edges|, j => if j < |edges| / size then size as real else 0.0)
  {
    var vs := LocalVectors(edges, size);
    EqualLengthsIffBalanced(edges, size, rank);
    BalancedIffDivisible(|edges|, size);
    if |edges| % size == 0 {
      ExactChunks(|edges|, size);
      PartitionLength(edges, rank, size);
      var c := ChunkSize(|edges|, size);
      DivUnique(|edges|, size, c, 0);
      var v := ReduceBenchmark(vs, rank).value;
      forall j | 0 <= j < c
        ensures v[j] == size as real
      {
        SumOfPlaceholders(vs, j);
      }
      assert v == seq(|edges|, j => if j < |edges| / size then size as real else 0.0);
    }
  }

  /** E=10, P=2: the gather holds ten placeholders on either rank. */
  lemma TenEdgesTwoRanksGather(edges: seq<Edge>, rank: nat)
    requires |edges| == 10 && rank < 2
    ensures GatherResults(LocalVectors(edges, 2), rank) == Ok(seq(10, _ => 1.0))
  {
    GatherOverPartitions(edges, 2, rank);
    var g := GatherResults(LocalVectors(edges, 2), rank);
    assert g.Ok? && g.value == seq(|edges|, _ => Placeholder);
    assert g.value == seq(10, _ => 1.0);
  }

  /** E=10, P=2: the reduce buffer holds five sums of 2.0 followed by five untouched zeros. */
  lemma TenEdgesTwoRanksReduce(edges: seq<Edge>, rank: nat)
    requires |edges| == 10 && rank < 2
    ensures ReduceBenchmark(LocalVectors(edges, 2), rank) == Ok(seq(10, j => if j < 5 then 2.0 else 0.0))
  {
    ReduceOverPartitions(edges, 2, rank);
    var r := ReduceBenchmark(LocalVectors(edges, 2), rank);
    assert r.Ok? && r.value == seq(|edges|, j => if j < |edges| / 2 then 2 as real else 0.0);
    assert |edges| / 2 == 5;
    assert r.value == seq(10, j => if j < 5 then 2.0 else 0.0);
  }

  /** The first `k` local vectors hold as many results as the first `k` partitions hold edges. */
  lemma {:induction false} LocalVectorsPrefixLength(edges: seq<Edge>, size: nat, k: nat)
    requires size >= 1 && k <= size
    ensures TotalLength(LocalVectors(edges, size)[..k]) == |Assembled(edges, size, k)|
  {
    if k > 0 {
      var vs := LocalVectors(edges, size);
      assert vs[..k][..k - 1] == vs[..k - 1];
      LocalVectorsPrefixLength(edges, size, k - 1);
    }
  }

  /** A gather that takes each rank's own count (displacements from the running total)
      delivers one placeholder per edge for every edge count and every number of ranks,
      including the uneven tails the fixed-count gather rejects. */
  lemma VaryingGatherOverPartitions(edges: seq<Edge>, size: nat)
    requires size >= 1
    ensures AllGatherVarying(LocalVectors(edges, size)) == seq(|edges|, _ => Placeholder)
  {
    var vs := LocalVectors(edges, size);
    LocalVectorsPrefixLength(edges, size, size);
    assert vs[..size] == vs;
    PartitionsCoverEdges(edges, size);
    ConcatConstant(vs, Placeholder);
  }

  /** E=7, P=3: the partitions hold 3, 3 and 1 edges, so the fixed-count gather and the
      reduce benchmark are ill formed on every rank, while the varying gather delivers
      seven placeholders. */
  lemma SevenEdgesThreeRanksGather(edges: seq<Edge>, rank: nat)
    requires |edges| == 7 && rank < 3
    ensures GatherResults(LocalVectors(edges, 3), rank).Err?
    ensures ReduceBenchmark(LocalVectors(edges, 3), rank).Err?
    ensures AllGatherVarying(LocalVectors(edges, 3)) == seq(7, _ => 1.0)
  {
    GatherOverPartitions(edges, 3, rank);
    ReduceOverPartitions(edges, 3, rank);
    VaryingGatherOverPartitions(edges, 3);
  }
}
