/** The group-wide primitives the benchmark calls, as pure functions of what every
    rank passes in (section 5.4, Broadcast; section 5.7, Gather-to-all; and
    section 5.9.6, All-Reduce, of the MPI-3.1 standard). A call is erroneous when the
    ranks do not agree on the element count; the model turns that into `CountMismatch`. */
module Collectives {
  import opened Outcomes
  import opened Arith

  /** Broadcast into a buffer of the caller's length: the root's data arrives when the
      caller's count equals the root's. */
  function Broadcast<T>(local: seq<T>, rootData: seq<T>): (r: Result<seq<T>>)
    ensures r.Ok? <==> |local| == |rootData|
    ensures r.Err? ==> r.fault == CountMismatch
    ensures r.Ok? ==> r.value == rootData
  {
    if |local| == |rootData| then Ok(rootData) else Err(CountMismatch)
  }

  /** Every rank's contribution has `len` elements. */
  predicate EqualLengths<T>(blocks: seq<seq<T>>, len: nat)
  {
    forall k :: 0 <= k < |blocks| ==> |blocks[k]| == len
  }

  /** Rank-ordered concatenation of the contributions. */
  function Concat<T>(blocks: seq<seq<T>>): seq<T>
  {
    if |blocks| == 0 then [] else Concat(blocks[..|blocks| - 1]) + blocks[|blocks| - 1]
  }

  /** With equal contributions of length `len`, the concatenation holds `len` per rank. */
  lemma {:induction false} ConcatUniform<T>(blocks: seq<seq<T>>, len: nat)
    requires EqualLengths(blocks, len)
    ensures |Concat(blocks)| == len * |blocks|
  {
    ConcatLength(blocks);
    TotalLengthUniform(blocks, len);
  }

  /** With equal contributions of length `len`, rank `k`'s element `i` sits at `k * len + i`. */
  lemma {:induction false} ConcatUniformAt<T>(blocks: seq<seq<T>>, len: nat, k: nat, i: nat)
    requires EqualLengths(blocks, len) && k < |blocks| && i < len
    ensures k * len + i < |Concat(blocks)| && Concat(blocks)[k * len + i] == blocks[k][i]
  {
    var front := blocks[..k];
    assert EqualLengths(front, len) by {
      assert forall j :: 0 <= j < k ==> front[j] == blocks[j];
    }
    TotalLengthUniform(front, len);
    assert TotalLength(front) + i == k * len + i;
    ConcatAt(blocks, k, i);
  }

  /** Every element of every contribution is `x`, so every element of the concatenation is. */
  lemma {:induction false} ConcatConstant<T>(blocks: seq<seq<T>>, x: T)
    requires forall k, i :: 0 <= k < |blocks| && 0 <= i < |blocks[k]| ==> blocks[k][i] == x
    ensures forall j :: 0 <= j < |Concat(blocks)| ==> Concat(blocks)[j] == x
  {
    if |blocks| > 0 {
      var n := |blocks| - 1;
      assert forall k :: 0 <= k < n ==> blocks[..n][k] == blocks[k];
      ConcatConstant(blocks[..n], x);
    }
  }

  /** Total number of elements over all contributions. */
  function TotalLength<T>(blocks: seq<seq<T>>): nat
  {
    if |blocks| == 0 then 0 else TotalLength(blocks[..|blocks| - 1]) + |blocks[|blocks| - 1]|
  }

  /** The concatenation holds every element of every contribution. */
  lemma {:induction false} ConcatLength<T>(blocks: seq<seq<T>>)
    ensures |Concat(blocks)| == TotalLength(blocks)
  {
    if |blocks| > 0 {
      ConcatLength(blocks[..|blocks| - 1]);
    }
  }

  /** Equal contributions of length `len` total `len` per rank. */
  lemma {:induction false} TotalLengthUniform<T>(blocks: seq<seq<T>>, len: nat)
    requires EqualLengths(blocks, len)
    ensures TotalLength(blocks) == len * |blocks|
  {
    if |blocks| > 0 {
      var n := |blocks| - 1;
      assert EqualLengths(blocks[..n], len) by {
        assert forall k :: 0 <= k < n ==> blocks[..n][k] == blocks[k];
      }
      TotalLengthUniform(blocks[..n], len);
      assert len * n + len == len * |blocks|;
    }
  }

  /** Rank `k`'s element `i` sits right after the blocks of ranks `0 .. k-1`. */
  lemma {:induction false} ConcatAt<T>(blocks: seq<seq<T>>, k: nat, i: nat)
    requires k < |blocks| && i < |blocks[k]|
    ensures TotalLength(blocks[..k]) + i < |Concat(blocks)|
            && Concat(blocks)[TotalLength(blocks[..k]) + i] == blocks[k][i]
  {
    var n := |blocks| - 1;
    var front := blocks[..n];
    ConcatLength(blocks);
    TotalLengthPrefix(blocks, k);
    assert Concat(blocks) == Concat(front) + blocks[n];
    if k < n {
      assert front[..k] == blocks[..k];
      assert front[k] == blocks[k];
      ConcatAt(front, k, i);
    } else {
      assert blocks[..k] == front;
      ConcatLength(front);
    }
  }

  /** Rank `k`'s block starts at the total length of the blocks of ranks `0 .. k-1`. */
  lemma {:induction false} ConcatDisplacements<T>(blocks: seq<seq<T>>)
    ensures |Concat(blocks)| == TotalLength(blocks)
    ensures forall k :: 0 <= k < |blocks| ==> TotalLength(blocks[..k]) + |blocks[k]| <= TotalLength(blocks)
    ensures forall k, i :: 0 <= k < |blocks| && 0 <= i < |blocks[k]| ==>
              Concat(blocks)[TotalLength(blocks[..k]) + i] == blocks[k][i]
  {
    ConcatLength(blocks);
    PrefixesFit(blocks);
    forall k, i | 0 <= k < |blocks| && 0 <= i < |blocks[k]|
      ensures Concat(blocks)[TotalLength(blocks[..k]) + i] == blocks[k][i]
    {
      ConcatAt(blocks, k, i);
    }
  }

  /** Every rank's block ends within the total. */
  lemma {:induction false} PrefixesFit<T>(blocks: seq<seq<T>>)
    ensures forall k :: 0 <= k < |blocks| ==> TotalLength(blocks[..k]) + |blocks[k]| <= TotalLength(blocks)
  {
    forall k | 0 <= k < |blocks|
      ensures TotalLength(blocks[..k]) + |blocks[k]| <= TotalLength(blocks)
    {
      TotalLengthPrefix(blocks, k);
    }
  }

  /** The blocks of a prefix of ranks fit inside the blocks of all of them. */
  lemma {:induction false} TotalLengthPrefix<T>(blocks: seq<seq<T>>, k: nat)
    requires k < |blocks|
    ensures TotalLength(blocks[..k]) + |blocks[k]| <= TotalLength(blocks)
  {
    var n := |blocks| - 1;
    if k < n {
      assert blocks[..n][..k] == blocks[..k];
      assert blocks[..n][k] == blocks[k];
      TotalLengthPrefix(blocks[..n], k);
    } else {
      assert blocks[..k] == blocks[..n];
    }
  }

  /** Gather-to-all with a count per rank (the varying-count form of section 5.7 of
      MPI-3.1): every rank's block, whatever its length, lands at its displacement. */
  function AllGatherVarying<T>(sends: seq<seq<T>>): (r: seq<T>)
    ensures |r| == TotalLength(sends)
    ensures forall k :: 0 <= k < |sends| ==> TotalLength(sends[..k]) + |sends[k]| <= |r|
    ensures forall k, i :: 0 <= k < |sends| && 0 <= i < |sends[k]| ==>
              r[TotalLength(sends[..k]) + i] == sends[k][i]
  {
    ConcatDisplacements(sends);
    Concat(sends)
  }

  /** Gather-to-all into a receive buffer `recv`, each rank expecting `recvCount` elements
      from every rank: the first `recvCount * |sends|` slots receive the rank-ordered
      concatenation, and the rest of the buffer is untouched. */
  function AllGatherInto<T>(sends: seq<seq<T>>, recvCount: nat, recv: seq<T>): (r: Result<seq<T>>)
    ensures r.Ok? <==> EqualLengths(sends, recvCount) && recvCount * |sends| <= |recv|
    ensures r.Err? ==> r.fault == CountMismatch
    ensures r.Ok? ==> |r.value| == |recv|
    ensures r.Ok? ==> r.value[..recvCount * |sends|] == Concat(sends)
    ensures r.Ok? ==> r.value[recvCount * |sends|..] == recv[recvCount * |sends|..]
  {
    var n := recvCount * |sends|;
    if EqualLengths(sends, recvCount) && n <= |recv| then
      ConcatUniform(sends, recvCount);
      Ok(Concat(sends) + recv[n..])
    else
      Err(CountMismatch)
  }

  /** Element `i` summed over all ranks' contributions. */
  function SumOver(sends: seq<seq<real>>, i: nat): real
    requires forall k :: 0 <= k < |sends| ==> i < |sends[k]|
  {
    if |sends| == 0 then 0.0 else SumOver(sends[..|sends| - 1], i) + sends[|sends| - 1][i]
  }

  /** All-reduce with the sum operation over `count` elements into `recv`: the first
      `count` slots receive the element-wise sums, and the rest of the buffer is untouched. */
  function AllReduceSumInto(sends: seq<seq<real>>, count: nat, recv: seq<real>): (r: Result<seq<real>>)
    ensures r.Ok? <==> EqualLengths(sends, count) && count <= |recv|
    ensures r.Err? ==> r.fault == CountMismatch
    ensures r.Ok? ==> |r.value| == |recv|
    ensures r.Ok? ==> forall i :: 0 <= i < count ==> r.value[i] == SumOver(sends, i)
    ensures r.Ok? ==> forall i :: count <= i < |recv| ==> r.value[i] == recv[i]
  {
    if EqualLengths(sends, count) && count <= |recv| then
      Ok(seq(|recv|, i requires 0 <= i < |recv| => if i < count then SumOver(sends, i) else recv[i]))
    else
      Err(CountMismatch)
  }
}
