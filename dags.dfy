/** The random DAG of `generate_DAG`: a sampled n x n 0/1 matrix, masked to
    its strict upper triangle and read as an adjacency matrix. */
module Dags {
  import opened Base

  datatype Edge = Edge(src: nat, dst: nat)

  /** Strict row-major (lexicographic) order on edges: the order in which
      the adjacency matrix lists them. */
  predicate Precedes(e: Edge, f: Edge) {
    e.src < f.src || (e.src == f.src && e.dst < f.dst)
  }

  predicate SortedEdges(es: seq<Edge>) {
    forall p, q :: 0 <= p < q < |es| ==> Precedes(es[p], es[q])
  }

  /** A graph over the nodes 0 .. n-1 with its edges in adjacency order. */
  datatype Dag = Dag(n: nat, edges: seq<Edge>) {
    /** The invariant `generate_DAG` establishes and the rest of the library
        relies on: every edge goes from a lower id to a higher id. */
    ghost predicate Valid() {
      && (forall k :: 0 <= k < |edges| ==> edges[k].src < edges[k].dst < n)
      && SortedEdges(edges)
    }
  }

  type Matrix = seq<seq<Bit>>

  predicate IsSquare(m: Matrix, n: nat) {
    |m| == n && forall i :: 0 <= i < n ==> |m[i]| == n
  }

  lemma RowFits(i: nat, n: nat)
    requires i < n
    ensures i * n + n <= n * n
  {
    var k := n - i - 1;
    assert n * n == (i + 1 + k) * n;
    assert (i + 1 + k) * n == i * n + n + k * n;
  }

  /** Row i of the reshaped draw: entries i*n .. i*n + n - 1. */
  function Row(a: seq<Bit>, n: nat, i: nat): (r: seq<Bit>)
    requires |a| == n * n && i < n
    ensures |r| == n
    ensures forall j :: 0 <= j < n ==> i * n + j < |a| && r[j] == a[i * n + j]
  {
    RowFits(i, n);
    var start := i * n;
    a[start .. start + n]
  }

  /** `np.reshape(a, (-1, n))` of the n*n drawn entries. */
  function Reshape(a: seq<Bit>, n: nat): (b: Matrix)
    requires |a| == n * n
    ensures IsSquare(b, n)
    ensures forall i :: 0 <= i < n ==> b[i] == Row(a, n, i)
  {
    seq(n, i requires 0 <= i < n => Row(a, n, i))
  }

  /** `np.triu(b, k=1)`: entries on and below the diagonal become 0. */
  function Triu(b: Matrix, n: nat): (c: Matrix)
    requires IsSquare(b, n)
    ensures IsSquare(c, n)
  {
    seq(n, i requires 0 <= i < n => seq(n, j requires 0 <= j < n => if i < j then b[i][j] else 0))
  }

  /** The edges of row i among the first j columns of an adjacency matrix. */
  function RowEdges(c: Matrix, n: nat, i: nat, j: nat): (es: seq<Edge>)
    requires IsSquare(c, n) && i < n && j <= n
    ensures forall e :: e in es <==> e.src == i && e.dst < j && c[i][e.dst] == 1
    ensures forall k :: 0 <= k < |es| ==> es[k].src == i && es[k].dst < j
    ensures SortedEdges(es)
  {
    if j == 0 then []
    else RowEdges(c, n, i, j - 1) + (if c[i][j - 1] == 1 then [Edge(i, j - 1)] else [])
  }

  /** The edges of the first i rows of an adjacency matrix, row by row. */
  function MatrixEdges(c: Matrix, n: nat, i: nat): (es: seq<Edge>)
    requires IsSquare(c, n) && i <= n
    ensures forall e :: e in es <==> e.src < i && e.dst < n && c[e.src][e.dst] == 1
    ensures forall k :: 0 <= k < |es| ==> es[k].src < i && es[k].dst < n
    ensures SortedEdges(es)
  {
    if i == 0 then []
    else
      var front := MatrixEdges(c, n, i - 1);
      var row := RowEdges(c, n, i - 1, n);
      SortedConcat(front, row);
      front + row
  }

  /** Two sorted runs, the first wholly before the second, concatenate to a
      sorted run. */
  lemma SortedConcat(a: seq<Edge>, b: seq<Edge>)
    requires SortedEdges(a) && SortedEdges(b)
    requires forall p, q :: 0 <= p < |a| && 0 <= q < |b| ==> a[p].src < b[q].src
    ensures SortedEdges(a + b)
  {
  }

  /** `nx.from_numpy_matrix(c, create_using=nx.DiGraph)`: nodes 0 .. n-1 and
      an edge for every non-zero entry. */
  function FromMatrix(c: Matrix, n: nat): (d: Dag)
    requires IsSquare(c, n)
    ensures d.n == n
  {
    Dag(n, MatrixEdges(c, n, n))
  }

  /** `generate_DAG(n, p)` with the n*n Bernoulli draws `a` made explicit.
      numpy refuses p outside [0, 1], and cannot reshape the empty draw of
      n == 0 into rows of width 0. */
  function GenerateDag(n: nat, p: real, a: seq<Bit>): (r: Result<Dag>)
    requires |a| == n * n
    ensures r.Failure? <==> n == 0 || p < 0.0 || 1.0 < p
    ensures r.Failure? ==> r.error == InvalidArgument
    ensures r.Success? ==> r.value.n == n && r.value.Valid()
    ensures r.Success? ==> forall e :: e in r.value.edges <==>
              e.src < e.dst < n && Reshape(a, n)[e.src][e.dst] == 1
  {
    if p < 0.0 || 1.0 < p || n == 0 then Failure(InvalidArgument)
    else Success(FromMatrix(Triu(Reshape(a, n), n), n))
  }

  /** The parents of v: `np.where(matrix[:, v] == 1)[0]` over the first k rows. */
  function ParentsBelow(d: Dag, v: nat, k: nat): (ps: seq<nat>)
    ensures forall u: nat :: u in ps <==> u < k && Edge(u, v) in d.edges
    ensures forall p, q :: 0 <= p < q < |ps| ==> ps[p] < ps[q]
    ensures forall p :: 0 <= p < |ps| ==> ps[p] < k
  {
    if k == 0 then []
    else ParentsBelow(d, v, k - 1) + (if Edge(k - 1, v) in d.edges then [k - 1] else [])
  }

  /** The ascending list of parents of v. */
  function Parents(d: Dag, v: nat): seq<nat> {
    ParentsBelow(d, v, d.n)
  }

  /** In a valid DAG the parents of v are exactly the sources of the edges
      into v, and all of them have smaller ids than v. */
  lemma ParentsOfValid(d: Dag, v: nat)
    requires d.Valid()
    ensures forall u :: u in Parents(d, v) <==> Edge(u, v) in d.edges
    ensures forall u :: u in Parents(d, v) ==> u < v
  {
    forall u: nat | Edge(u, v) in d.edges
      ensures u < d.n && u < v
    {
      var k :| 0 <= k < |d.edges| && d.edges[k] == Edge(u, v);
    }
  }

  /** A walk: consecutive nodes are joined by an edge. */
  ghost predicate IsWalk(d: Dag, w: seq<nat>) {
    forall k :: 0 <= k < |w| - 1 ==> Edge(w[k], w[k + 1]) in d.edges
  }

  /** Along every walk of a valid DAG the ids strictly increase. */
  lemma {:induction false} WalkAscends(d: Dag, w: seq<nat>)
    requires d.Valid() && IsWalk(d, w) && |w| >= 2
    ensures w[0] < w[|w| - 1]
    decreases |w|
  {
    assert Edge(w[0], w[1]) in d.edges;
    var k :| 0 <= k < |d.edges| && d.edges[k] == Edge(w[0], w[1]);
    if |w| > 2 {
      var rest := w[1..];
      assert IsWalk(d, rest) by {
        forall j | 0 <= j < |rest| - 1 ensures Edge(rest[j], rest[j + 1]) in d.edges {
          assert rest[j] == w[j + 1] && rest[j + 1] == w[j + 2];
        }
      }
      WalkAscends(d, rest);
    }
  }

  /** Hence a valid DAG is acyclic: no walk of length at least one edge
      returns to its start. */
  lemma Acyclic(d: Dag, w: seq<nat>)
    requires d.Valid() && IsWalk(d, w) && |w| >= 2
    ensures w[0] != w[|w| - 1]
  {
    WalkAscends(d, w);
  }

  lemma HeadIsMember<T>(s: seq<T>)
    requires |s| > 0
    ensures s[0] in s
  {
  }

  /** Node 0 never has a parent, so it is a root of every generated DAG. */
  lemma NodeZeroIsRoot(d: Dag)
    requires d.Valid()
    ensures Parents(d, 0) == []
  {
    ParentsOfValid(d, 0);
    var ps := Parents(d, 0);
    if |ps| > 0 {
      HeadIsMember(ps);
      assert false;
    }
  }
}
