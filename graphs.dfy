/** The graph record shared by both versions of the benchmark. */
module Graphs {

  /** An edge `(u, v)` between two vertex identifiers (`usize` / `size_t`). */
  datatype Edge = Edge(u: nat, v: nat)

  /** The ordered edge list and the vertex count. */
  datatype Graph = Graph(edges: seq<Edge>, vertices: nat)

  /** Every endpoint of every edge is a vertex identifier below `bound`. */
  ghost predicate EndpointsBelow(edges: seq<Edge>, bound: nat)
  {
    forall i :: 0 <= i < |edges| ==> edges[i].u < bound && edges[i].v < bound
  }
}
