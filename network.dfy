/** The read-only view of a flow network that both Kuramoto modules work on.
    Nodes are numbered by their position in the graph's node order (the
    `node_indices` / `node2idx` dictionaries of the source); an edge is one
    entry of `flownet.edges(data=True)`. */
module Network {
  import opened Numerics

  /** An edge (u, v) in networkx's iteration order, with its "weight"
      attribute when it has one. */
  datatype Edge = Edge(u: nat, v: nat, weight: Option<real>)

  /** The dictionary key an edge's flow is stored under. */
  function Key(e: Edge): (nat, nat)
  {
    (e.u, e.v)
  }

  /** The factor that scales an edge's flow and its column of the weighted
      incidence matrix: `dat.get(weight_attr, 1)`, where `weighted` says that
      the network names "weight" as its weight attribute. */
  function Weight(e: Edge, weighted: bool): real
  {
    if weighted && e.weight.Some? then e.weight.value else 1.0
  }

  /** Both endpoints of every edge are nodes of an n-node network. */
  ghost predicate EdgesWithin(edges: seq<Edge>, n: nat)
  {
    forall k :: 0 <= k < |edges| ==> edges[k].u < n && edges[k].v < n
  }

  /** Edge e joins u and v, in either direction. */
  predicate Joins(e: Edge, u: nat, v: nat)
  {
    (e.u == u && e.v == v) || (e.u == v && e.v == u)
  }

  /** An undirected simple graph lists each pair of nodes at most once. */
  ghost predicate Simple(edges: seq<Edge>)
  {
    forall j, k :: 0 <= j < k < |edges| ==> !Joins(edges[k], edges[j].u, edges[j].v)
  }

  /** In a simple graph two different edges never join the same nodes. */
  lemma SimpleApart(edges: seq<Edge>, i: nat, j: nat)
    requires Simple(edges) && i < |edges| && j < |edges| && i != j
    ensures !Joins(edges[i], edges[j].u, edges[j].v)
  {
    if i < j {
      assert !Joins(edges[j], edges[i].u, edges[i].v);
    }
  }

  /** The position of the edge joining u and v (`flownet[u][v]`), if any. */
  function FindEdge(edges: seq<Edge>, u: nat, v: nat): (r: Option<nat>)
    ensures r.Some? ==> r.value < |edges| && Joins(edges[r.value], u, v)
    ensures r.None? ==> forall k :: 0 <= k < |edges| ==> !Joins(edges[k], u, v)
  {
    if edges == [] then None
    else if Joins(edges[0], u, v) then Some(0)
    else match FindEdge(edges[1..], u, v)
      case None => None
      case Some(k) => Some(k + 1)
  }

  /** One entry of networkx's oriented incidence matrix: the column of edge
      (u, v) holds -w at u and +w at v, and a self-loop's column is zero. */
  function IncidenceEntry(e: Edge, i: nat, weighted: bool): real
  {
    if e.u == e.v then 0.0
    else if i == e.u then -Weight(e, weighted)
    else if i == e.v then Weight(e, weighted)
    else 0.0
  }

  /** A matrix with the given numbers of rows and columns. */
  ghost predicate IsMatrix(M: seq<seq<real>>, rows: nat, cols: nat)
  {
    |M| == rows && forall i :: 0 <= i < rows ==> |M[i]| == cols
  }

  /** `nx.incidence_matrix(flownet, oriented=True)` (with `weight=` when
      `weighted`): one row per node, one column per edge. */
  function Incidence(n: nat, edges: seq<Edge>, weighted: bool): (M: seq<seq<real>>)
    ensures IsMatrix(M, n, |edges|)
    ensures forall i, k :: 0 <= i < n && 0 <= k < |edges| ==> M[i][k] == IncidenceEntry(edges[k], i, weighted)
  {
    seq(n, i requires 0 <= i < n => seq(|edges|, k requires 0 <= k < |edges| => IncidenceEntry(edges[k], i, weighted)))
  }
}
