/** The structural-causal-model parameters `parametrize_DAG` attaches to a
    DAG: `lam` and `v_self` on every node, `v_prop` and `lag` on every edge. */
module Params {
  import opened Base
  import opened Dags

  /** A probability in thousandths (the source rounds to three decimals). */
  type Prob = p: int | 0 <= p <= 1000

  /** A propagation delay in samples; the attacher draws it from 1 .. lag. */
  type Lag = l: int | 1 <= l witness 1

  datatype NodeAttrs = NodeAttrs(lam: Prob, vSelf: Prob)

  datatype EdgeAttrs = EdgeAttrs(vProp: Prob, lag: Lag)

  /** A DAG together with the attribute dictionaries of its nodes and edges. */
  datatype Model = Model(dag: Dag, nodeAttrs: map<nat, NodeAttrs>, edgeAttrs: map<Edge, EdgeAttrs>) {
    /** Every node and every edge carries its attributes. */
    predicate Complete() {
      && (forall v: nat :: v < dag.n ==> v in nodeAttrs)
      && (forall e :: e in dag.edges ==> e in edgeAttrs)
    }
  }

  /** The candidate lists `random.choice` picks from, and the `lag` argument
      whose candidates are `np.arange(1, lag + 1, 1)`. */
  datatype Grids = Grids(lam: seq<Prob>, vSelf: seq<Prob>, vProp: seq<Prob>, lagMax: int)

  /** The index each `random.choice` call returns, per node or per edge. */
  datatype Picks = Picks(lam: nat -> nat, vSelf: nat -> nat, vProp: Edge -> nat, lag: Edge -> nat)

  /** A choice index always lies inside the (non-empty) list it picks from. */
  ghost predicate PicksInRange(g: Grids, picks: Picks) {
    && (|g.lam| > 0 ==> forall v :: picks.lam(v) < |g.lam|)
    && (|g.vSelf| > 0 ==> forall v :: picks.vSelf(v) < |g.vSelf|)
    && (|g.vProp| > 0 ==> forall e :: picks.vProp(e) < |g.vProp|)
    && (g.lagMax >= 1 ==> forall e :: picks.lag(e) < g.lagMax)
  }

  /** `random.choice` raises IndexError on an empty list, but only when some
      node or edge actually asks it for a value. */
  predicate NoCandidates(d: Dag, g: Grids) {
    || (d.n > 0 && (|g.lam| == 0 || |g.vSelf| == 0))
    || (|d.edges| > 0 && (|g.vProp| == 0 || g.lagMax < 1))
  }

  function NodeDraw(g: Grids, picks: Picks, v: nat): NodeAttrs
    requires PicksInRange(g, picks) && |g.lam| > 0 && |g.vSelf| > 0
  {
    NodeAttrs(g.lam[picks.lam(v)], g.vSelf[picks.vSelf(v)])
  }

  function EdgeDraw(g: Grids, picks: Picks, e: Edge): EdgeAttrs
    requires PicksInRange(g, picks) && |g.vProp| > 0 && g.lagMax >= 1
  {
    EdgeAttrs(g.vProp[picks.vProp(e)], picks.lag(e) + 1)
  }

  /** Fresh node attributes for the nodes 0 .. n-1. */
  function DrawNodes(n: nat, g: Grids, picks: Picks): (nodes: map<nat, NodeAttrs>)
    requires PicksInRange(g, picks) && |g.lam| > 0 && |g.vSelf| > 0
    ensures forall v: nat :: v in nodes <==> v < n
    ensures forall v: nat :: v < n ==> nodes[v] == NodeDraw(g, picks, v)
  {
    map v: nat | v < n :: NodeDraw(g, picks, v)
  }

  /** Fresh edge attributes for the given edges. */
  function DrawEdges(es: seq<Edge>, g: Grids, picks: Picks): (edges: map<Edge, EdgeAttrs>)
    requires PicksInRange(g, picks) && |g.vProp| > 0 && g.lagMax >= 1
    ensures forall e :: e in edges <==> e in es
    ensures forall e :: e in es ==> edges[e] == EdgeDraw(g, picks, e)
  {
    map e | e in es :: EdgeDraw(g, picks, e)
  }

  /** The model after `parametrize_DAG`: the structure is untouched, every
      node gets `lam` and `v_self` drawn from their lists, every edge gets a
      `v_prop` from its list and a `lag` in 1 .. lagMax. */
  function Parametrized(m: Model, g: Grids, picks: Picks): (r: Result<Model>)
    requires PicksInRange(g, picks)
    ensures r.Failure? <==> NoCandidates(m.dag, g)
    ensures r.Failure? ==> r.error == EmptyCandidates
    ensures r.Success? ==> r.value.dag == m.dag && r.value.Complete()
    ensures r.Success? ==> forall v: nat :: v < m.dag.n ==>
              r.value.nodeAttrs[v].lam in g.lam && r.value.nodeAttrs[v].vSelf in g.vSelf
    ensures r.Success? ==> forall e :: e in m.dag.edges ==>
              r.value.edgeAttrs[e].vProp in g.vProp && 1 <= r.value.edgeAttrs[e].lag <= g.lagMax
    ensures r.Success? ==> forall v :: v in m.nodeAttrs && v >= m.dag.n ==>
              v in r.value.nodeAttrs && r.value.nodeAttrs[v] == m.nodeAttrs[v]
    ensures r.Success? ==> forall e :: e in m.edgeAttrs && e !in m.dag.edges ==>
              e in r.value.edgeAttrs && r.value.edgeAttrs[e] == m.edgeAttrs[e]
  {
    if NoCandidates(m.dag, g) then Failure(EmptyCandidates)
    else
      var nodes := if m.dag.n == 0 then map[] else DrawNodes(m.dag.n, g, picks);
      var edges := if |m.dag.edges| == 0 then map[] else DrawEdges(m.dag.edges, g, picks);
      Success(Model(m.dag, m.nodeAttrs + nodes, m.edgeAttrs + edges))
  }

  /** The node loop of `Graph.Parametrize` leaves the node attributes
      `Parametrized` describes. */
  lemma NodesDrawn(m: Model, g: Grids, picks: Picks, nodes: map<nat, NodeAttrs>)
    requires PicksInRange(g, picks) && !NoCandidates(m.dag, g)
    requires forall v: nat :: v < m.dag.n ==> v in nodes && nodes[v] == NodeDraw(g, picks, v)
    requires forall v: nat :: v in nodes <==> v in m.nodeAttrs || v < m.dag.n
    requires forall v: nat :: v in m.nodeAttrs && v >= m.dag.n ==> nodes[v] == m.nodeAttrs[v]
    ensures Parametrized(m, g, picks).value.nodeAttrs == nodes
  {
    var drawn := if m.dag.n == 0 then map[] else DrawNodes(m.dag.n, g, picks);
    assert nodes == m.nodeAttrs + drawn;
  }

  /** The edge loop of `Graph.Parametrize` leaves the edge attributes
      `Parametrized` describes. */
  lemma EdgesDrawn(m: Model, g: Grids, picks: Picks, edges: map<Edge, EdgeAttrs>)
    requires PicksInRange(g, picks) && !NoCandidates(m.dag, g)
    requires forall e :: e in m.dag.edges ==> e in edges && edges[e] == EdgeDraw(g, picks, e)
    requires forall e :: e in edges <==> e in m.edgeAttrs || e in m.dag.edges
    requires forall e :: e in m.edgeAttrs && e !in m.dag.edges ==> edges[e] == m.edgeAttrs[e]
    ensures Parametrized(m, g, picks).value.edgeAttrs == edges
  {
    var drawn := if |m.dag.edges| == 0 then map[] else DrawEdges(m.dag.edges, g, picks);
    assert edges == m.edgeAttrs + drawn;
  }

  /** The networkx graph object whose attribute dictionaries
      `parametrize_DAG` writes in place. */
  class Graph {
    var dag: Dag
    var nodeAttrs: map<nat, NodeAttrs>
    var edgeAttrs: map<Edge, EdgeAttrs>

    function View(): Model
      reads this
    {
      Model(dag, nodeAttrs, edgeAttrs)
    }

    /** A freshly generated graph carries no attributes. */
    constructor (d: Dag)
      ensures View() == Model(d, map[], map[])
    {
      dag := d;
      nodeAttrs := map[];
      edgeAttrs := map[];
    }

    /** `parametrize_DAG`: a loop over the nodes, then a loop over the edges,
        each assigning freshly drawn attributes. */
    method Parametrize(g: Grids, picks: Picks) returns (r: Outcome)
      requires PicksInRange(g, picks)
      modifies this
      ensures r.Fail? ==> View() == old(View())
      ensures Parametrized(old(View()), g, picks) ==
              (if r.Pass? then Success(View()) else Failure(r.error))
    {
      if NoCandidates(dag, g) {
        return Fail(EmptyCandidates);
      }
      ghost var start := View();
      var i := 0;
      while i < dag.n
        invariant 0 <= i <= dag.n
        invariant forall v: nat :: v < i ==> v in nodeAttrs && nodeAttrs[v] == NodeDraw(g, picks, v)
        invariant forall v: nat :: v in nodeAttrs <==> v in start.nodeAttrs || v < i
        invariant forall v: nat :: v in start.nodeAttrs && v >= i ==> nodeAttrs[v] == start.nodeAttrs[v]
        modifies this`nodeAttrs
      {
        nodeAttrs := nodeAttrs[i := NodeDraw(g, picks, i)];
        i := i + 1;
      }
      var k := 0;
      while k < |dag.edges|
        invariant 0 <= k <= |dag.edges|
        invariant forall j :: 0 <= j < k ==> dag.edges[j] in edgeAttrs && edgeAttrs[dag.edges[j]] == EdgeDraw(g, picks, dag.edges[j])
        invariant forall e :: e in edgeAttrs <==> e in start.edgeAttrs || e in dag.edges[..k]
        invariant forall e :: e in start.edgeAttrs && e !in dag.edges[..k] ==> edgeAttrs[e] == start.edgeAttrs[e]
        modifies this`edgeAttrs
      {
        var e := dag.edges[k];
        edgeAttrs := edgeAttrs[e := EdgeDraw(g, picks, e)];
        assert dag.edges[..k + 1] == dag.edges[..k] + [e];
        k := k + 1;
      }
      assert dag.edges[..k] == dag.edges;
      NodesDrawn(start, g, picks, nodeAttrs);
      EdgesDrawn(start, g, picks, edgeAttrs);
      r := Pass;
    }
  }
}
