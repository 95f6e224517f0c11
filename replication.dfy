/** Replication of the origin's graph to every rank: the vertex count and the edge count
    are broadcast, then the edges travel as one flat buffer `u0, v0, u1, v1, ...` and
    every other rank regroups that buffer into pairs. */
module Replication {
  import opened Outcomes
  import opened Graphs
  import opened Collectives

  /** `Vec::resize` / `vector::resize`: truncate to `n` elements or pad with `fill`. */
  function Resize<T>(s: seq<T>, n: nat, fill: T): (r: seq<T>)
    ensures |r| == n
    ensures forall i :: 0 <= i < n ==> r[i] == if i < |s| then s[i] else fill
  {
    if n <= |s| then s[..n] else s + seq(n - |s|, _ => fill)
  }

  /** The flat payload: each edge contributes its two endpoints, in order. */
  function Flatten(edges: seq<Edge>): (flat: seq<nat>)
    ensures |flat| == 2 * |edges|
    ensures forall i :: 0 <= i < |edges| ==> flat[2 * i] == edges[i].u && flat[2 * i + 1] == edges[i].v
  {
    if edges == [] then [] else [edges[0].u, edges[0].v] + Flatten(edges[1..])
  }

  /** `chunks(2).map(|c| (c[0], c[1]))`: consecutive elements regrouped into edges. */
  function Unflatten(flat: seq<nat>): (edges: seq<Edge>)
    requires |flat| % 2 == 0
    ensures |edges| == |flat| / 2
    ensures forall i :: 0 <= i < |edges| ==> edges[i] == Edge(flat[2 * i], flat[2 * i + 1])
  {
    if flat == [] then [] else [Edge(flat[0], flat[1])] + Unflatten(flat[2..])
  }

  /** Regrouping the flat payload gives back the edge list. */
  lemma UnflattenFlatten(edges: seq<Edge>)
    ensures Unflatten(Flatten(edges)) == edges
  {
  }

  /** Flattening the regrouped pairs gives back any even-length buffer. */
  lemma {:induction false} FlattenUnflatten(flat: seq<nat>)
    requires |flat| % 2 == 0
    ensures Flatten(Unflatten(flat)) == flat
  {
    if flat != [] {
      var rest := Unflatten(flat[2..]);
      FlattenUnflatten(flat[2..]);
      assert Unflatten(flat) == [Edge(flat[0], flat[1])] + rest;
      assert ([Edge(flat[0], flat[1])] + rest)[1..] == rest;
      assert flat == [flat[0], flat[1]] + flat[2..];
    }
  }

  /** A non-root rank's placeholder edges `(0, 0)` flatten to an all-zero buffer that is
      already as long as the root's payload. */
  lemma PlaceholderPayload(numEdges: nat)
    ensures Flatten(Resize([], numEdges, Edge(0, 0))) == seq(2 * numEdges, _ => 0)
  {
    var placeholders := Resize([], numEdges, Edge(0, 0));
    var flat := Flatten(placeholders);
    forall k | 0 <= k < 2 * numEdges
      ensures flat[k] == 0
    {
      var i := k / 2;
      assert placeholders[i] == Edge(0, 0);
      assert k == 2 * i || k == 2 * i + 1;
    }
  }

  /** The Rust replication on rank `rank`, where `origin` is rank 0's generated graph.
      Rank 0 starts with the graph, every other rank with an empty placeholder; the two
      scalar broadcasts deliver the vertex and edge counts; the flat-buffer broadcast is
      well formed because every rank's buffer already has `2 * num_edges` elements; and
      the rebuilt graph equals the origin's on every rank. */
  method ReplicateRust(rank: nat, origin: Graph) returns (graph: Graph)
    ensures graph == origin
  {
    graph := if rank == 0 then origin else Graph([], 0);
    graph := graph.(vertices := origin.vertices);
    var numEdges := |graph.edges|;
    numEdges := |origin.edges|;
    if rank != 0 {
      graph := graph.(edges := Resize(graph.edges, numEdges, Edge(0, 0)));
    }
    var flatEdges := Flatten(graph.edges);
    var delivered := Broadcast(flatEdges, Flatten(origin.edges));
    assert delivered.Ok?;
    flatEdges := delivered.value;
    if rank != 0 {
      flatEdges := Resize(flatEdges, numEdges * 2, 0);
      graph := graph.(edges := Unflatten(flatEdges));
      UnflattenFlatten(origin.edges);
    }
  }

  /** The C++ flatten loop on the root: `flat[2i] = edges[i].first`,
      `flat[2i+1] = edges[i].second`. */
  method FlattenInto(edges: seq<Edge>, flat: array<nat>)
    requires flat.Length == 2 * |edges|
    modifies flat
    ensures flat[..] == Flatten(edges)
  {
    for i := 0 to |edges|
      invariant forall j :: 0 <= j < i ==> flat[2 * j] == edges[j].u && flat[2 * j + 1] == edges[j].v
    {
      flat[2 * i] := edges[i].u;
      flat[2 * i + 1] := edges[i].v;
    }
    forall k | 0 <= k < flat.Length
      ensures flat[k] == Flatten(edges)[k]
    {
      var i := k / 2;
      assert flat[2 * i] == edges[i].u && flat[2 * i + 1] == edges[i].v;
      assert k == 2 * i || k == 2 * i + 1;
    }
  }

  /** The C++ rebuild loop on a non-root rank: `clear()`, then one `emplace_back` per
      pair of the received buffer. */
  method Rebuild(flat: array<nat>, numEdges: nat) returns (edges: seq<Edge>)
    requires flat.Length == 2 * numEdges
    ensures |edges| == numEdges
    ensures forall i :: 0 <= i < numEdges ==> edges[i] == Edge(flat[2 * i], flat[2 * i + 1])
    ensures edges == Unflatten(flat[..])
  {
    edges := [];
    for i := 0 to numEdges
      invariant |edges| == i
      invariant forall j :: 0 <= j < i ==> edges[j] == Edge(flat[2 * j], flat[2 * j + 1])
    {
      edges := edges + [Edge(flat[2 * i], flat[2 * i + 1])];
    }
  }

  /** The C++ replication on rank `rank`. Every rank allocates a zeroed buffer of
      `2 * num_edges` elements, the root fills it, the broadcast delivers the root's
      buffer, and the non-root ranks rebuild their edge list from it. */
  method ReplicateCpp(rank: nat, origin: Graph) returns (graph: Graph)
    ensures graph == origin
  {
    graph := if rank == 0 then origin else Graph([], 0);
    var numEdges := if rank == 0 then |graph.edges| else 0;
    graph := graph.(vertices := origin.vertices);
    numEdges := |origin.edges|;
    if rank != 0 {
      graph := graph.(edges := Resize(graph.edges, numEdges, Edge(0, 0)));
    }
    var flat := new nat[numEdges * 2];
    if rank == 0 {
      FlattenInto(graph.edges, flat);
    }
    var delivered := Broadcast(flat[..], Flatten(origin.edges));
    assert delivered.Ok?;
    forall k | 0 <= k < flat.Length {
      flat[k] := delivered.value[k];
    }
    assert flat[..] == Flatten(origin.edges);
    if rank != 0 {
      var rebuilt := Rebuild(flat, numEdges);
      graph := graph.(edges := rebuilt);
      UnflattenFlatten(origin.edges);
    }
  }
}
