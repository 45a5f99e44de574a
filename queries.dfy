/** The derived queries over a DAG: `get_roots`, `get_ground_truth` and
    `mean_degree`. */
module Queries {
  import opened Base
  import opened Dags
  import opened Labels

  /** `get_roots`: the ascending list of nodes whose adjacency column holds
      no 1; networkx refuses the adjacency matrix of a graph with no nodes. */
  method Roots(d: Dag) returns (r: Result<seq<nat>>)
    ensures r.Failure? <==> d.n == 0
    ensures r.Failure? ==> r.error == EmptyGraph
    ensures r.Success? ==> forall v: nat :: v in r.value <==> v < d.n && Parents(d, v) == []
    ensures r.Success? ==> forall p, q :: 0 <= p < q < |r.value| ==> r.value[p] < r.value[q]
  {
    if d.n == 0 {
      return Failure(EmptyGraph);
    }
    var roots: seq<nat> := [];
    var node := 0;
    while node < d.n
      invariant 0 <= node <= d.n
      invariant forall v: nat :: v in roots <==> v < node && Parents(d, v) == []
      invariant forall p :: 0 <= p < |roots| ==> roots[p] < node
      invariant forall p, q :: 0 <= p < q < |roots| ==> roots[p] < roots[q]
    {
      var parentsList := Parents(d, node);
      if |parentsList| == 0 {
        roots := roots + [node];
      }
      node := node + 1;
    }
    return Success(roots);
  }

  /** In a valid DAG a node is a root exactly when no edge ends in it. */
  lemma RootIffNoInEdge(d: Dag, v: nat)
    requires d.Valid()
    ensures Parents(d, v) == [] <==> forall k :: 0 <= k < |d.edges| ==> d.edges[k].dst != v
  {
    ParentsOfValid(d, v);
    var ps := Parents(d, v);
    if ps != [] {
      assert ps[0] in ps;
      var k :| 0 <= k < |d.edges| && d.edges[k] == Edge(ps[0], v);
    } else {
      forall k | 0 <= k < |d.edges| ensures d.edges[k].dst != v {
        assert d.edges[k] in d.edges;
      }
    }
  }

  /** `get_ground_truth`: one `"u->v"` string per edge, in edge order. */
  method GroundTruth(d: Dag) returns (gt: seq<string>)
    ensures |gt| == |d.edges|
    ensures forall k :: 0 <= k < |gt| ==> gt[k] == EdgeLabel(d.edges[k])
    ensures forall k :: 0 <= k < |gt| ==> ParseEdgeLabel(gt[k]) == Some(d.edges[k])
    ensures d.Valid() ==> forall p, q :: 0 <= p < q < |gt| ==> gt[p] != gt[q]
  {
    gt := [];
    var k := 0;
    while k < |d.edges|
      invariant 0 <= k <= |d.edges| && |gt| == k
      invariant forall j :: 0 <= j < k ==> gt[j] == EdgeLabel(d.edges[j])
    {
      var e := d.edges[k];
      var edge := NatToString(e.src) + "->" + NatToString(e.dst);
      gt := gt + [edge];
      k := k + 1;
    }
    forall j | 0 <= j < |gt| ensures ParseEdgeLabel(gt[j]) == Some(d.edges[j]) {
      LabelRoundTrip(d.edges[j]);
    }
    if d.Valid() {
      forall p, q | 0 <= p < q < |gt| ensures gt[p] != gt[q] {
        assert Precedes(d.edges[p], d.edges[q]);
      }
    }
  }

  /** `graph.degree(v)`: edges leaving v plus edges entering v. */
  function Degree(es: seq<Edge>, v: nat): nat {
    if es == [] then 0
    else
      var e := es[|es| - 1];
      Degree(es[..|es| - 1], v) + (if e.src == v then 1 else 0) + (if e.dst == v then 1 else 0)
  }

  /** The sum of the degrees of nodes 0 .. k-1. */
  function DegreeSum(es: seq<Edge>, k: nat): nat {
    if k == 0 then 0 else DegreeSum(es, k - 1) + Degree(es, k - 1)
  }

  lemma {:induction false} DegreeSumLast(es: seq<Edge>, k: nat)
    requires es != []
    ensures var e := es[|es| - 1];
      DegreeSum(es, k) == DegreeSum(es[..|es| - 1], k) + (if e.src < k then 1 else 0) + (if e.dst < k then 1 else 0)
  {
    if k > 0 {
      DegreeSumLast(es, k - 1);
    }
  }

  lemma {:induction false} NoEdgesNoDegree(k: nat)
    ensures DegreeSum([], k) == 0
  {
    if k > 0 {
      NoEdgesNoDegree(k - 1);
    }
  }

  /** Handshake: when all endpoints lie among the first k nodes, the degrees
      of those nodes add up to twice the number of edges. */
  lemma {:induction false} Handshake(es: seq<Edge>, k: nat)
    requires forall j :: 0 <= j < |es| ==> es[j].src < k && es[j].dst < k
    ensures DegreeSum(es, k) == 2 * |es|
  {
    if es == [] {
      NoEdgesNoDegree(k);
    } else {
      var front := es[..|es| - 1];
      assert forall j :: 0 <= j < |front| ==> front[j] == es[j];
      assert es[|es| - 1].src < k && es[|es| - 1].dst < k;
      DegreeSumLast(es, k);
      Handshake(front, k);
    }
  }

  /** `mean_degree`: the degree sum over the node count; Python raises
      ZeroDivisionError on the empty graph. */
  method MeanDegree(d: Dag) returns (r: Result<real>)
    ensures r.Failure? <==> d.n == 0
    ensures r.Failure? ==> r.error == DivisionByZero
    ensures r.Success? ==> r.value == DegreeSum(d.edges, d.n) as real / d.n as real
    ensures r.Success? && d.Valid() ==> r.value == (2 * |d.edges|) as real / d.n as real
  {
    var degree := 0;
    var i := 0;
    while i < d.n
      invariant 0 <= i <= d.n && degree == DegreeSum(d.edges, i)
    {
      degree := degree + Degree(d.edges, i);
      i := i + 1;
    }
    if d.n == 0 {
      return Failure(DivisionByZero);
    }
    if d.Valid() {
      Handshake(d.edges, d.n);
    }
    return Success(degree as real / d.n as real);
  }

  /** The path 0 -> 1 -> 2: degrees 1, 2, 1 and mean 4/3. */
  lemma MeanDegreeOfPath()
    ensures var es := [Edge(0, 1), Edge(1, 2)];
      && Degree(es, 0) == 1 && Degree(es, 1) == 2 && Degree(es, 2) == 1
      && DegreeSum(es, 3) as real / 3.0 == 4.0 / 3.0
  {
    var es := [Edge(0, 1), Edge(1, 2)];
    assert es[..1] == [Edge(0, 1)];
    assert [Edge(0, 1)][..0] == [];
  }
}
