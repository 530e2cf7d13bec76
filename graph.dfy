/** The conversation graph: a directed multigraph given by its edge list in
    insertion order, as networkx's MultiDiGraph keeps it. */
module Graph {

  type NodeId = string

  /** One transition `(source, target, action)`; also the shape of a parsed
      path segment. */
  datatype Edge = Edge(source: NodeId, target: NodeId, action: string)

  /** The node set: every endpoint of an edge (add_edge adds both). */
  function Nodes(g: seq<Edge>): set<NodeId> {
    (set e | e in g :: e.source) + (set e | e in g :: e.target)
  }

  function TargetsOf(g: seq<Edge>, u: NodeId): set<NodeId> {
    set e | e in g && e.source == u :: e.target
  }

  /** graph.neighbors(u): the distinct targets of u's edges, in the order in
      which each target was first connected to u. */
  function Successors(g: seq<Edge>, u: NodeId): (s: seq<NodeId>)
    ensures forall v :: v in s <==> v in TargetsOf(g, u)
    ensures forall i, j :: 0 <= i < j < |s| ==> s[i] != s[j]
  {
    if g == [] then []
    else
      var s := Successors(g[..|g| - 1], u);
      var e := g[|g| - 1];
      assert g == g[..|g| - 1] + [e];
      if e.source == u && e.target !in s then s + [e.target] else s
  }

  /** The actions of the parallel edges u -> v (graph[u][v]), in insertion order. */
  function Actions(g: seq<Edge>, u: NodeId, v: NodeId): (acts: seq<string>)
    ensures forall a :: a in acts <==> Edge(u, v, a) in g
  {
    if g == [] then []
    else
      var acts := Actions(g[..|g| - 1], u, v);
      var e := g[|g| - 1];
      assert g == g[..|g| - 1] + [e];
      if e.source == u && e.target == v then acts + [e.action] else acts
  }

  /** Adding an edge appends its target to u's successors when it is the first
      edge from u to that target. */
  lemma SuccessorsSnoc(g: seq<Edge>, e: Edge, u: NodeId)
    ensures Successors(g + [e], u)
         == if e.source == u && e.target !in Successors(g, u) then Successors(g, u) + [e.target] else Successors(g, u)
  {
    assert (g + [e])[..|g|] == g;
  }

  /** Edges leaving other nodes do not change the successors of u. */
  lemma {:induction false} SuccessorsOthers(g: seq<Edge>, h: seq<Edge>, u: NodeId)
    requires forall e :: e in h ==> e.source != u
    ensures Successors(g + h, u) == Successors(g, u)
    decreases |h|
  {
    if h == [] {
      assert g + h == g;
    } else {
      var init := h[..|h| - 1];
      SuccessorsOthers(g, init, u);
      assert g + h == (g + init) + [h[|h| - 1]];
      SuccessorsSnoc(g + init, h[|h| - 1], u);
    }
  }
}
