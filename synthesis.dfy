/** `time_series`: the discrete-time alert recurrence over a parametrized
    DAG, with every Bernoulli draw made an explicit input. */
module Synthesis {
  import opened Base
  import opened Dags
  import opened Params

  /** The outcomes of the `np.random.choice` calls of one run: the
      persistence draw and the new-fault draw of node v at sample i, and the
      propagation draw of edge e at sample i. */
  datatype Draws = Draws(selfDraw: (nat, nat) -> Bit, newDraw: (nat, nat) -> Bit, propDraw: (Edge, nat) -> Bit)

  /** The table `time_series` returns: one column per node id. */
  type Table = map<nat, seq<Bit>>

  /** `range(1, length)` adds length - 1 samples to the initial 0, and none
      when length < 1. */
  function ColumnLength(length: int): nat {
    if length >= 1 then length else 1
  }

  /** Sample i of node v. */
  function Sample(m: Model, d: Draws, v: nat, i: nat): Bit
    requires m.dag.Valid() && (i == 0 || m.Complete())
    decreases v, i, 2, 0
  {
    if i == 0 then 0
    else
      var gateSelf := And(Sample(m, d, v, i - 1), d.selfDraw(v, i));
      var parents := Parents(m.dag, v);
      if |parents| > 0 then Or(Or(gateSelf, d.newDraw(v, i)), AnyGate(m, d, v, i, parents))
      else Or(gateSelf, d.newDraw(v, i))
  }

  /** The propagation gate of the edge u -> v at sample i: 0 before `lag`
      samples have elapsed, else the parent's lagged sample AND the draw. */
  function Gate(m: Model, d: Draws, u: nat, v: nat, i: nat): Bit
    requires m.dag.Valid() && m.Complete() && Edge(u, v) in m.dag.edges
    decreases v, i, 0, 0
  {
    var e := Edge(u, v);
    var lag := m.edgeAttrs[e].lag;
    ParentsOfValid(m.dag, v);
    assert u in Parents(m.dag, v);
    if i < lag then 0 else And(Sample(m, d, u, i - lag), d.propDraw(e, i))
  }

  /** One step of the recurrence, for a node with and without parents. */
  lemma SampleStep(m: Model, d: Draws, v: nat, i: nat)
    requires m.dag.Valid() && m.Complete() && i >= 1
    ensures var gateSelf := And(Sample(m, d, v, i - 1), d.selfDraw(v, i));
      var parents := Parents(m.dag, v);
      Sample(m, d, v, i) ==
        if |parents| > 0 then Or(Or(gateSelf, d.newDraw(v, i)), AnyGate(m, d, v, i, parents))
        else Or(gateSelf, d.newDraw(v, i))
  {
  }

  /** The gate of u -> v is exactly 0 while i < lag; from then on it reads
      the parent's column at the in-bounds, strictly earlier index i - lag. */
  lemma GateValue(m: Model, d: Draws, u: nat, v: nat, i: nat)
    requires m.dag.Valid() && m.Complete() && Edge(u, v) in m.dag.edges
    ensures var lag := m.edgeAttrs[Edge(u, v)].lag;
      && (i < lag ==> Gate(m, d, u, v, i) == 0)
      && (lag <= i ==>
            && 0 <= i - lag < i && u < v
            && Gate(m, d, u, v, i) == And(Sample(m, d, u, i - lag), d.propDraw(Edge(u, v), i)))
  {
    ParentsOfValid(m.dag, v);
  }

  /** `any(v_prop_values)` over the gates of the parents ps of v. */
  function AnyGate(m: Model, d: Draws, v: nat, i: nat, ps: seq<nat>): Bit
    requires m.dag.Valid() && m.Complete()
    requires forall p :: p in ps ==> Edge(p, v) in m.dag.edges
    decreases v, i, 1, |ps|
  {
    if ps == [] then 0
    else Or(AnyGate(m, d, v, i, ps[..|ps| - 1]), Gate(m, d, ps[|ps| - 1], v, i))
  }

  /** `any` of a list of 0/1 values. */
  function Any(gates: seq<Bit>): Bit {
    if gates == [] then 0 else Or(Any(gates[..|gates| - 1]), gates[|gates| - 1])
  }

  /** The first len samples of node v. */
  function Column(m: Model, d: Draws, v: nat, len: nat): (c: seq<Bit>)
    requires m.dag.Valid() && (len <= 1 || m.Complete())
    ensures |c| == len
  {
    if len == 0 then [] else Column(m, d, v, len - 1) + [Sample(m, d, v, len - 1)]
  }

  lemma {:induction false} ColumnAt(m: Model, d: Draws, v: nat, len: nat, k: nat)
    requires m.dag.Valid() && (len <= 1 || m.Complete()) && k < len
    ensures Column(m, d, v, len)[k] == Sample(m, d, v, k)
  {
    if k < len - 1 {
      ColumnAt(m, d, v, len - 1, k);
    }
  }

  /** The columns of nodes 0 .. node-1, each complete and as specified. */
  ghost predicate Filled(m: Model, d: Draws, length: int, df: Table, node: nat)
    requires m.dag.Valid() && (length >= 2 ==> m.Complete())
  {
    && (forall v: nat :: v in df <==> v < node)
    && (forall v :: v in df ==> df[v] == Column(m, d, v, ColumnLength(length)))
  }

  /** The gate of one parent u of `node` at sample i: `v_prop` and `lag`
      are looked up, the propagation draw is taken, and the parent's column
      is read at i - lag once lag samples have elapsed. */
  method ParentGate(m: Model, d: Draws, length: int, df: Table, u: nat, node: nat, i: nat)
    returns (gateProp: Bit)
    requires m.dag.Valid() && m.Complete() && 1 <= i < length
    requires Filled(m, d, length, df, node) && Edge(u, node) in m.dag.edges
    ensures gateProp == Gate(m, d, u, node, i)
  {
    var e := Edge(u, node);
    var lag := m.edgeAttrs[e].lag;
    var errorGateProp := d.propDraw(e, i);
    GateValue(m, d, u, node, i);
    if i < lag {
      gateProp := 0;
    } else {
      assert u in df && i - lag < |df[u]|;
      ColumnAt(m, d, u, ColumnLength(length), i - lag);
      gateProp := And(df[u][i - lag], errorGateProp);
    }
  }

  /** The inner loop of `time_series`: the gates of all parents of `node` at
      sample i, combined by `any`. Parent columns are read from `df`. */
  method ParentGates(m: Model, d: Draws, length: int, df: Table, node: nat, i: nat, parents: seq<nat>)
    returns (anyGate: Bit)
    requires m.dag.Valid() && m.Complete() && 1 <= i < length
    requires Filled(m, d, length, df, node) && parents == Parents(m.dag, node)
    ensures anyGate == AnyGate(m, d, node, i, parents)
  {
    ParentsOfValid(m.dag, node);
    var gates: seq<Bit> := [];
    var c := 0;
    while c < |parents|
      invariant 0 <= c <= |parents| && |gates| == c
      invariant Any(gates) == AnyGate(m, d, node, i, parents[..c])
    {
      var u := parents[c];
      assert u in parents;
      var gateProp := ParentGate(m, d, length, df, u, node, i);
      assert parents[..c + 1][..c] == parents[..c];
      assert (gates + [gateProp])[..c] == gates;
      gates := gates + [gateProp];
      c := c + 1;
    }
    assert parents[..c] == parents;
    anyGate := Any(gates);
  }

  /** One pass of the sample loop: the persistence gate, the new fault and,
      for a node with parents, the parent gates, OR-ed together. */
  method NextSample(m: Model, d: Draws, length: int, df: Table, node: nat, i: nat,
                    parents: seq<nat>, currentNode: Bit)
    returns (next: Bit)
    requires m.dag.Valid() && m.Complete() && 1 <= i < length
    requires Filled(m, d, length, df, node) && parents == Parents(m.dag, node)
    requires currentNode == Sample(m, d, node, i - 1)
    ensures next == Sample(m, d, node, i)
  {
    var errorGateSelf := d.selfDraw(node, i);
    var errorCurrentNode := d.newDraw(node, i);
    var gateSelf := And(currentNode, errorGateSelf);
    if |parents| > 0 {
      var anyGate := ParentGates(m, d, length, df, node, i, parents);
      next := Or(Or(gateSelf, errorCurrentNode), anyGate);
    } else {
      next := Or(gateSelf, errorCurrentNode);
    }
    SampleStep(m, d, node, i);
  }

  /** The column of one node: sample 0 is 0, then one sample per index
      1 .. length - 1. */
  method NodeColumn(m: Model, d: Draws, length: int, df: Table, node: nat) returns (alert: seq<Bit>)
    requires m.dag.Valid() && (length >= 2 ==> m.Complete())
    requires Filled(m, d, length, df, node)
    ensures alert == Column(m, d, node, ColumnLength(length))
  {
    var parents := Parents(m.dag, node);
    var currentNode: Bit := 0;
    alert := [currentNode];
    var i := 1;
    while i < length
      invariant 1 <= i && (i <= length || i == 1)
      invariant alert == Column(m, d, node, i)
      invariant currentNode == Sample(m, d, node, i - 1)
    {
      currentNode := NextSample(m, d, length, df, node, i, parents, currentNode);
      alert := alert + [currentNode];
      i := i + 1;
    }
  }

  /** `time_series(graph, length)`: nodes in ascending id order, each column
      built from the already finished columns of its parents. networkx
      refuses the adjacency matrix of a graph with no nodes. Reading an
      attribute that was never attached raises KeyError; since the exception
      discards the whole table, the attributes are looked up before the loops. */
  method TimeSeries(m: Model, length: int, d: Draws) returns (r: Result<Table>)
    requires m.dag.Valid()
    ensures r.Failure? <==> m.dag.n == 0 || (length >= 2 && !m.Complete())
    ensures r.Failure? ==> r.error == (if m.dag.n == 0 then EmptyGraph else MissingParameter)
    ensures r.Success? ==> forall v: nat :: v in r.value <==> v < m.dag.n
    ensures r.Success? ==> forall v :: v in r.value ==>
              |r.value[v]| == ColumnLength(length) && r.value[v][0] == 0
    ensures r.Success? ==> forall v, i :: v in r.value && 0 <= i < |r.value[v]| ==>
              (i == 0 || m.Complete()) && r.value[v][i] == Sample(m, d, v, i)
  {
    if m.dag.n == 0 {
      return Failure(EmptyGraph);
    }
    if length >= 2 && !m.Complete() {
      return Failure(MissingParameter);
    }
    var df: Table := map[];
    var node := 0;
    while node < m.dag.n
      invariant 0 <= node <= m.dag.n
      invariant Filled(m, d, length, df, node)
    {
      var alert := NodeColumn(m, d, length, df, node);
      df := df[node := alert];
      node := node + 1;
    }
    forall v, i | v in df && 0 <= i < |df[v]|
      ensures (i == 0 || m.Complete()) && df[v][i] == Sample(m, d, v, i)
    {
      ColumnAt(m, d, v, ColumnLength(length), i);
    }
    return Success(df);
  }
}

/** Properties of the alert recurrence. */
module SynthesisProperties {
  import opened Base
  import opened Dags
  import opened Params
  import opened Synthesis

  /** `any` over the parent gates is 1 exactly when some parent's gate is 1. */
  lemma {:induction false} AnyGateIsSome(m: Model, d: Draws, v: nat, i: nat, ps: seq<nat>)
    requires m.dag.Valid() && m.Complete()
    requires forall p :: p in ps ==> Edge(p, v) in m.dag.edges
    ensures AnyGate(m, d, v, i, ps) == 1 <==> exists k :: 0 <= k < |ps| && Gate(m, d, ps[k], v, i) == 1
    decreases |ps|
  {
    if ps != [] {
      var front := ps[..|ps| - 1];
      AnyGateIsSome(m, d, v, i, front);
      assert forall k :: 0 <= k < |front| ==> front[k] == ps[k];
    }
  }

  /** A sample from index 1 on is `gate_self OR new fault OR some parent
      gate`, and a node without parents follows the root recurrence. */
  lemma SampleIsOrOfGates(m: Model, d: Draws, v: nat, i: nat)
    requires m.dag.Valid() && m.Complete() && i >= 1
    ensures Sample(m, d, v, i) == 1 <==>
      || And(Sample(m, d, v, i - 1), d.selfDraw(v, i)) == 1
      || d.newDraw(v, i) == 1
      || exists u :: u in Parents(m.dag, v) && Gate(m, d, u, v, i) == 1
    ensures Parents(m.dag, v) == [] ==>
      Sample(m, d, v, i) == Or(And(Sample(m, d, v, i - 1), d.selfDraw(v, i)), d.newDraw(v, i))
  {
    var ps := Parents(m.dag, v);
    AnyGateIsSome(m, d, v, i, ps);
    if exists u :: u in ps && Gate(m, d, u, v, i) == 1 {
      var u :| u in ps && Gate(m, d, u, v, i) == 1;
      var k :| 0 <= k < |ps| && ps[k] == u;
    }
  }

  /** No sample from index 1 on is below its new-fault draw. */
  lemma SampleAtLeastNewDraw(m: Model, d: Draws, v: nat, i: nat)
    requires m.dag.Valid() && m.Complete() && i >= 1
    ensures Sample(m, d, v, i) >= d.newDraw(v, i)
  {
    SampleStep(m, d, v, i);
  }

  /** A node whose new-fault draw fires at every sample is active from
      sample 1 on (`lam = 1`). */
  lemma AlwaysFaultingStaysActive(m: Model, d: Draws, v: nat)
    requires m.dag.Valid() && m.Complete()
    requires forall i :: i >= 1 ==> d.newDraw(v, i) == 1
    ensures forall i :: i >= 1 ==> Sample(m, d, v, i) == 1
  {
    forall i | i >= 1 ensures Sample(m, d, v, i) == 1 {
      SampleAtLeastNewDraw(m, d, v, i);
    }
  }

  /** A root whose new-fault draw never fires stays at 0 for ever
      (`lam = 0`), whatever its persistence draws. */
  lemma {:induction false} QuietRootStaysZero(m: Model, d: Draws, v: nat, i: nat)
    requires m.dag.Valid() && m.Complete() && Parents(m.dag, v) == []
    requires forall k :: 1 <= k <= i ==> d.newDraw(v, k) == 0
    ensures Sample(m, d, v, i) == 0
  {
    if i > 0 {
      QuietRootStaysZero(m, d, v, i - 1);
      SampleStep(m, d, v, i);
    }
  }

  /** With no new fault anywhere, no alert ever appears on any node:
      persistence and propagation only carry faults that already exist. */
  lemma {:induction false} NoFaultsNoAlerts(m: Model, d: Draws, v: nat, i: nat)
    requires m.dag.Valid() && m.Complete()
    requires forall u, k :: d.newDraw(u, k) == 0
    ensures Sample(m, d, v, i) == 0
    decreases v, i
  {
    if i > 0 {
      NoFaultsNoAlerts(m, d, v, i - 1);
      var ps := Parents(m.dag, v);
      ParentsOfValid(m.dag, v);
      forall k | 0 <= k < |ps| ensures Gate(m, d, ps[k], v, i) == 0 {
        var u := ps[k];
        assert u in ps;
        GateValue(m, d, u, v, i);
        if m.edgeAttrs[Edge(u, v)].lag <= i {
          NoFaultsNoAlerts(m, d, u, i - m.edgeAttrs[Edge(u, v)].lag);
        }
      }
      AnyGateIsSome(m, d, v, i, ps);
      SampleStep(m, d, v, i);
    }
  }

  /** An active parent propagates: if u is 1 at i - lag and the propagation
      draw of u -> v fires at i, then v is 1 at i. */
  lemma PropagationFires(m: Model, d: Draws, u: nat, v: nat, i: nat)
    requires m.dag.Valid() && m.Complete() && Edge(u, v) in m.dag.edges
    requires m.edgeAttrs[Edge(u, v)].lag <= i
    requires Sample(m, d, u, i - m.edgeAttrs[Edge(u, v)].lag) == 1
    requires d.propDraw(Edge(u, v), i) == 1
    ensures Sample(m, d, v, i) == 1
  {
    ParentsOfValid(m.dag, v);
    GateValue(m, d, u, v, i);
    SampleIsOrOfGates(m, d, v, i);
  }

  /** Before the smallest lag of its in-edges has elapsed, a node evolves
      exactly like a root: propagation contributes nothing. */
  lemma BeforeEveryLag(m: Model, d: Draws, v: nat, i: nat)
    requires m.dag.Valid() && m.Complete() && i >= 1
    requires forall u :: u in Parents(m.dag, v) ==> i < m.edgeAttrs[Edge(u, v)].lag
    ensures Sample(m, d, v, i) == Or(And(Sample(m, d, v, i - 1), d.selfDraw(v, i)), d.newDraw(v, i))
  {
    var ps := Parents(m.dag, v);
    forall k | 0 <= k < |ps| ensures Gate(m, d, ps[k], v, i) == 0 {
      assert ps[k] in ps;
      GateValue(m, d, ps[k], v, i);
    }
    AnyGateIsSome(m, d, v, i, ps);
    SampleStep(m, d, v, i);
  }

  /** Two runs that agree on v's own draws, on the propagation draws of the
      edges into v and on the columns of v's parents agree on v's column. */
  ghost predicate SameInputsAt(m: Model, d1: Draws, d2: Draws, v: nat)
    requires m.dag.Valid() && m.Complete()
  {
    && (forall k :: d1.selfDraw(v, k) == d2.selfDraw(v, k) && d1.newDraw(v, k) == d2.newDraw(v, k))
    && (forall u, k :: u in Parents(m.dag, v) ==> d1.propDraw(Edge(u, v), k) == d2.propDraw(Edge(u, v), k))
    && (forall u, k :: u in Parents(m.dag, v) ==> Sample(m, d1, u, k) == Sample(m, d2, u, k))
  }

  lemma {:induction false} GatesAgree(m: Model, d1: Draws, d2: Draws, v: nat, i: nat, ps: seq<nat>)
    requires m.dag.Valid() && m.Complete() && SameInputsAt(m, d1, d2, v)
    requires forall p :: p in ps ==> p in Parents(m.dag, v)
    ensures forall p :: p in ps ==> Edge(p, v) in m.dag.edges
    ensures AnyGate(m, d1, v, i, ps) == AnyGate(m, d2, v, i, ps)
    decreases |ps|
  {
    ParentsOfValid(m.dag, v);
    if ps != [] {
      var u := ps[|ps| - 1];
      assert u in ps;
      GateValue(m, d1, u, v, i);
      GateValue(m, d2, u, v, i);
      GatesAgree(m, d1, d2, v, i, ps[..|ps| - 1]);
    }
  }

  /** A column depends only on the node's own draws, the draws of its
      in-edges and its parents' columns. */
  lemma {:induction false} ColumnDependsOnParents(m: Model, d1: Draws, d2: Draws, v: nat, i: nat)
    requires m.dag.Valid() && m.Complete() && SameInputsAt(m, d1, d2, v)
    ensures Sample(m, d1, v, i) == Sample(m, d2, v, i)
  {
    if i > 0 {
      ColumnDependsOnParents(m, d1, d2, v, i - 1);
      GatesAgree(m, d1, d2, v, i, Parents(m.dag, v));
      SampleStep(m, d1, v, i);
      SampleStep(m, d2, v, i);
    }
  }
}
