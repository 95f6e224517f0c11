/** The random graph generator, with the random source passed in as an oracle:
    `draw(k)` is the raw value of the k-th call to the random source. */
module Generator {
  import opened Outcomes
  import opened Graphs

  /** The Rust generator: `(0..num_edges).map(|_| (gen_range(0..V), gen_range(0..V)))`.
      Each sample is the raw draw reduced into `[0, V)`; sampling from the empty range
      panics, which happens exactly when an edge is requested and there are no vertices. */
  function GenerateGraph(numEdges: nat, numVertices: nat, draw: nat -> nat): (r: Result<Graph>)
    ensures r.Ok? <==> numEdges == 0 || numVertices > 0
    ensures r.Err? ==> r.fault == EmptyRange
    ensures r.Ok? ==> |r.value.edges| == numEdges && r.value.vertices == numVertices
    ensures r.Ok? ==> EndpointsBelow(r.value.edges, numVertices)
    ensures r.Ok? ==> forall i :: 0 <= i < numEdges ==>
              r.value.edges[i] == Edge(draw(2 * i) % numVertices, draw(2 * i + 1) % numVertices)
  {
    if numEdges > 0 && numVertices == 0 then
      Err(EmptyRange)
    else
      var edges := seq(numEdges, i requires 0 <= i < numEdges =>
                         Edge(draw(2 * i) % numVertices, draw(2 * i + 1) % numVertices));
      Ok(Graph(edges, numVertices))
  }

  /** The C++ generator: an `emplace_back` loop of `(rand() % V, rand() % V)`.
      `rand() % 0` is undefined, so at least one vertex is needed once an edge is drawn.
      C++ does not fix the order in which the two `rand()` calls of one edge are evaluated;
      taking them left to right, the loop builds the graph the Rust generator builds from
      the same draws. */
  method GenerateGraphLoop(numEdges: nat, numVertices: nat, draw: nat -> nat) returns (g: Graph)
    requires numEdges == 0 || numVertices > 0
    ensures |g.edges| == numEdges && g.vertices == numVertices
    ensures EndpointsBelow(g.edges, numVertices)
    ensures GenerateGraph(numEdges, numVertices, draw) == Ok(g)
  {
    g := Graph([], numVertices);
    for i := 0 to numEdges
      invariant g.vertices == numVertices && |g.edges| == i
      invariant forall j :: 0 <= j < i ==>
                  g.edges[j] == Edge(draw(2 * j) % numVertices, draw(2 * j + 1) % numVertices)
    {
      g := g.(edges := g.edges + [Edge(draw(2 * i) % numVertices, draw(2 * i + 1) % numVertices)]);
    }
    ghost var spec := GenerateGraph(numEdges, numVertices, draw);
    assert spec.Ok? && g.edges == spec.value.edges;
  }
}
