# Causal digital twin: alert propagation over a random DAG

This project models the core of `causal_digital_twin.py`, a generator of
labelled binary time series for benchmarking causal-discovery methods, and
proves properties of the model in Dafny.

- `generate_DAG` samples an n x n 0/1 matrix and keeps its strict upper
  triangle. It then reads the result as an adjacency matrix (module `Dags`).
- `parametrize_DAG` attaches `lam` and `v_self` to every node, and `v_prop`
  and `lag` to every edge, by writing the graph's attribute dictionaries in
  place (module `Params`, class `Params.Graph`).
- `time_series` builds one 0/1 column per node, in ascending node order. It
  uses a recurrence with three parts: a persistence gate
  (`previous AND self draw`), a new-fault draw, and one propagation gate per
  parent (`parent[i - lag] AND propagation draw`, forced to 0 while
  `i < lag`). The parts are OR-ed together (module `Synthesis`, properties
  in `SynthesisProperties`).
- `get_roots`, `get_ground_truth` and `mean_degree` are queries over the
  graph (modules `Queries` and `Labels`). `compare` and `return_f1` are the
  scores (module `Scoring`).

Randomness is an input. Every `np.random.choice` draw of `time_series` is a
value of the total functions in `Synthesis.Draws`: a self-persistence bit and
a new-fault bit per node and sample, and a propagation bit per edge and
sample. Every `random.choice` of `parametrize_DAG` is an index given by
`Params.Picks`: two per node (`lam`, `v_self`) and two per edge (`v_prop`,
`lag`). The n*n draws of `generate_DAG` are the
flat sequence `a`. With those draws fixed, every operation is deterministic.
Two runs on the same inputs give the same table because `Synthesis.Sample`
is a function.

`time_series` is imperative in the source, so it is modelled as methods with
loops. The outer loop over nodes is `Synthesis.TimeSeries`. The sample loop
is `Synthesis.NodeColumn`, with one pass in `Synthesis.NextSample`. The
parent loop is `Synthesis.ParentGates`, with one gate in
`Synthesis.ParentGate`. Each method is proved against the recursive
specification `Synthesis.Sample`. The parent columns live in a map
`df: map<nat, seq<Bit>>`, like the pandas DataFrame. The read `df[u][i - lag]`
is only well defined because the column of `u` is already complete. The
verifier proves this from the DAG invariant: every edge goes from a lower id
to a higher id.

Three behaviours of the code worth noting:
- `time_series` with `length < 1` returns a column holding only the initial
  0 (`range(1, length)` is empty). It does not fail.
- `parametrize_DAG` fails only when `random.choice` receives an empty
  candidate list (IndexError), not on an "inverted range" as such.
- An attribute that was never attached raises `KeyError`, and only when
  `length >= 2`. It is reported as `MissingParameter`.

## Model

| member | source | states |
|---|---|---|
| `Dags.GenerateDag` | causal_digital_twin.py:11-28 | Fails with InvalidArgument exactly when n = 0 (numpy cannot reshape an empty draw into rows of width 0) or p lies outside [0, 1]. Otherwise the DAG has n nodes. Every edge goes from a lower to a higher id, and edges are listed in strict adjacency order. (u, v) is an edge iff u < v < n and the sampled entry b[u][v] is 1. |
| `Dags.MatrixEdges` | causal_digital_twin.py:26 | Reading a square 0/1 matrix as an adjacency matrix lists (u, v) iff entry [u][v] is 1, in strictly increasing row-major order, so no edge appears twice. |
| `Dags.ParentsBelow` | causal_digital_twin.py:150 | The parent list `np.where(matrix[:, v] == 1)[0]` holds exactly the u with an edge u -> v, in strictly ascending order. |
| `Dags.ParentsOfValid` | causal_digital_twin.py:21-23 | In a valid DAG every parent of v has a smaller id than v, and the parents are exactly the sources of the edges into v. |
| `Dags.WalkAscends` | causal_digital_twin.py:21-23 | Along every walk in a valid DAG the node ids strictly increase. |
| `Dags.Acyclic` | causal_digital_twin.py:21-23 | No walk of one or more edges in a valid DAG returns to its start, so the graph is acyclic and ascending id order is a topological order. |
| `Dags.NodeZeroIsRoot` | causal_digital_twin.py:23 | Node 0 has no parent in any valid DAG. |
| `Params.Parametrized` | causal_digital_twin.py:85-114 | Fails with EmptyCandidates exactly when some node or edge must draw from an empty candidate list. Otherwise the structure is unchanged, and every node has `lam` and `v_self` taken from their candidate lists. Every edge has a `v_prop` from its list and a `lag` in 1 .. lag. Attributes of nodes and edges outside the graph are kept unchanged. |
| `Params.Graph.constructor` | causal_digital_twin.py:26 | A freshly built graph carries none of `lam`, `v_self`, `v_prop` or `lag`. |
| `Params.Graph.Parametrize` | causal_digital_twin.py:106-114 | The node loop and then the edge loop leave the graph's state equal to `Parametrized` of the old state. On an empty candidate list the method reports EmptyCandidates. |
| `Synthesis.TimeSeries` | causal_digital_twin.py:139-199 | Fails with EmptyGraph when the graph has no node, since networkx refuses its adjacency matrix (line 145). Otherwise it fails with MissingParameter iff length >= 2 and some node or edge lacks attributes. Otherwise there is one column per node 0 .. n-1. Each column starts with 0 and has exactly `length` samples, or the single initial 0 when length < 1. Sample i of node v equals `Sample(v, i)`. |
| `Synthesis.NodeColumn` | causal_digital_twin.py:152-194 | The column built for one node, from the finished columns of the nodes before it, is exactly its first ColumnLength(length) specified samples. |
| `Synthesis.NextSample` | causal_digital_twin.py:161-194 | One pass of the sample loop turns the previous sample into the next specified sample, for nodes with and without parents. |
| `Synthesis.ParentGates` | causal_digital_twin.py:168-187 | `any` over the gates built by the parent loop equals the specified OR over all parents' gates. |
| `Synthesis.ParentGate` | causal_digital_twin.py:172-184 | The gate computed for one parent, which reads the already finished parent column, equals the specified gate. |
| `Synthesis.GateValue` | causal_digital_twin.py:178-181 | A parent's gate is exactly 0 while i < lag. From lag on, it is `parent[i - lag] AND propagation draw`, and the read index satisfies 0 <= i - lag < i. |
| `SynthesisProperties.AnyGateIsSome` | causal_digital_twin.py:184-187 | `any` over the parent gates is 1 iff some parent's gate is 1. |
| `SynthesisProperties.SampleIsOrOfGates` | causal_digital_twin.py:166-191 | A sample from index 1 on is 1 iff the persistence gate, the new-fault draw or some parent gate is 1. For a root it equals `(previous AND self draw) OR new draw`. |
| `SynthesisProperties.SampleAtLeastNewDraw` | causal_digital_twin.py:163-191 | No sample from index 1 on is smaller than its new-fault draw. |
| `SynthesisProperties.AlwaysFaultingStaysActive` | causal_digital_twin.py:163-191 | If the new-fault draw of a node fires at every sample, every sample from index 1 on is 1. |
| `SynthesisProperties.QuietRootStaysZero` | causal_digital_twin.py:153-191 | If the new-fault draw of a root never fires up to i, its column is 0 up to i, whatever its persistence draws. |
| `SynthesisProperties.NoFaultsNoAlerts` | causal_digital_twin.py:153-194 | With no new fault on any node, every sample of every node is 0. |
| `SynthesisProperties.PropagationFires` | causal_digital_twin.py:176-187 | If the parent is 1 at i - lag, i >= lag, and the propagation draw of the edge fires at i, then the child is 1 at i. |
| `SynthesisProperties.BeforeEveryLag` | causal_digital_twin.py:178-191 | While i is below the lag of every in-edge, a node evolves exactly like a root. |
| `SynthesisProperties.ColumnDependsOnParents` | causal_digital_twin.py:149-197 | Two runs that agree on a node's own draws, on its in-edges' propagation draws and on its parents' columns agree on that node's whole column. |
| `Labels.NatToString` | causal_digital_twin.py:210 | `str(u)` of a node id is a non-empty string of decimal digits. It starts with '0' only for 0, which is the string "0", so there is no leading zero. |
| `Labels.ParseNatToString` | causal_digital_twin.py:210 | Reading the decimal string of x gives back x. |
| `Labels.LabelRoundTrip` | causal_digital_twin.py:210 | Parsing the label `str(u) + "->" + str(v)` gives back the edge (u, v). |
| `Labels.LabelInjective` | causal_digital_twin.py:210 | Distinct edges have distinct labels. |
| `Queries.Roots` | causal_digital_twin.py:69-81 | Fails with EmptyGraph iff the graph has no node, since networkx refuses its adjacency matrix (line 74). Otherwise it returns exactly the nodes whose parent list is empty, in strictly ascending order. |
| `Queries.RootIffNoInEdge` | causal_digital_twin.py:78-79 | In a valid DAG a node is a root iff no edge ends at it. |
| `Queries.GroundTruth` | causal_digital_twin.py:203-215 | Gives one label per edge, in edge order. Label k is exactly `str(u) + "->" + str(v)` of edge k, and it parses back to edge k. For a valid DAG the labels are pairwise distinct. |
| `Queries.Handshake` | causal_digital_twin.py:236-238 | When all endpoints lie among the nodes counted, the degree sum is twice the number of edges. |
| `Queries.MeanDegree` | causal_digital_twin.py:232-243 | Fails with DivisionByZero iff the graph has no node. Otherwise it is the degree sum over the node count, which for a valid DAG is 2 * edges / nodes. |
| `Queries.MeanDegreeOfPath` | causal_digital_twin.py:232-243 | On the path 0 -> 1 -> 2 the degrees are 1, 2, 1 and the mean is 4/3. |
| `Scoring.ElementsSize` | causal_digital_twin.py:253 | `set(l)` has at most `len(l)` elements, and exactly that many when no entry repeats. |
| `Scoring.CorrectSize` | causal_digital_twin.py:253 | There are no more correct edges than entries in either list. |
| `Scoring.Compare` | causal_digital_twin.py:247-260 | Fails with DivisionByZero iff the ground truth is empty. Otherwise precision and recall lie in [0, 1], and precision is 0 for an empty `out`. precision * len(out) and recall * len(gt) equal the number of edges in both lists. |
| `Scoring.PerfectRecall` | causal_digital_twin.py:253-259 | For a ground truth without repeats, recall is 1 iff every ground-truth edge was discovered. |
| `Scoring.PerfectPrecision` | causal_digital_twin.py:253-258 | For a discovered list without repeats, precision is 1 iff every discovered edge is in the ground truth. |
| `Scoring.CompareExample` | causal_digital_twin.py:247-260 | Comparing ["0->1", "1->2"] with ["0->1", "2->3"] gives precision 0.5 and recall 0.5. |
| `Scoring.F1` | causal_digital_twin.py:219-228 | Is 0 when either score is 0. It fails with DivisionByZero exactly when both are non-zero and sum to 0. |
| `Scoring.F1Symmetric` | causal_digital_twin.py:224-225 | F1(p, r) = F1(r, p). |
| `Scoring.F1IsHarmonicMean` | causal_digital_twin.py:224-225 | For positive scores F1 is their harmonic mean: 2 / F1 = 1/p + 1/r. |
| `Scoring.F1Bounds` | causal_digital_twin.py:219-228 | On scores in [0, 1], F1 is defined. It lies between the smaller and the larger score, hence in [0, 1]. |
| `Scoring.F1OfEqualScores` | causal_digital_twin.py:219-228 | F1(p, p) = p for p != 0; in particular F1(0.5, 0.5) = 0.5 and F1(0, 0.7) = 0. |

## Left out

- `plot_DAG`, `print_DAG`, `get_parents`, `get_parents_parameters`, the progress message of `time_series` and `compare_verbose` are not modelled. They only draw with matplotlib or print to stdout. `compare_verbose` repeats `compare`'s arithmetic without its empty-`out` guard.
- The random sources are not modelled. Their outcomes are inputs (`Synthesis.Draws`, `Params.Picks`, the flat draw of `Dags.GenerateDag`), and no distribution is modelled. So `lam`, `v_self` and `v_prop` affect no result, and `p` only decides whether `Dags.GenerateDag` fails.
- The floating-point candidate grids of `parametrize_DAG` (`np.arange(lo, hi + step, step)`) and the rounding to three decimals are not modelled. Whether a grid includes its endpoint depends on float behaviour. Instead, the candidate lists are inputs, with probabilities given in thousandths.
- networkx, numpy and pandas are modelled by values, not by their internals. The graph is n plus an edge list. The adjacency matrix is a `seq<seq<Bit>>`. The DataFrame is a map from node id to column. `get_roots` returns numpy floats and the columns hold floats; the model uses naturals and 0/1 integers.
- In `compare`, the unused `addit` list (line 254) is not modelled.
- `Synthesis.TimeSeries`: requires a valid DAG, as every graph from `generate_DAG` is. In a valid DAG every edge goes from a lower to a higher id, and the edge list is in row-major order. Other graphs are not modelled. With a back edge u -> v, u > v, the source raises KeyError only once a sample index reaches that edge's lag, because it then reads a column not yet built. When length <= lag it returns a table.
- The probabilities are given the type `Params.Prob`, which only holds values in [0, 1]. The source stores whatever bounds `parametrize_DAG` receives without checking them (lines 96-99 and 107), e.g. 1.1 from `lam=(0.9, 1.1)`. `np.random.choice` then raises ValueError at lines 162, 163 or 176. The model excludes such values by type and does not model this ValueError.
- The type `Params.Lag` likewise excludes a `lag` below 1 that a caller sets by hand.
- networkx gives every edge built by `from_numpy_matrix` a `weight` of 1. `adjacency_matrix` reads that weight (lines 74 and 145), and the `== 1` parent tests at lines 78 and 150 rely on it. The model has no `weight` attribute: every edge counts as weight 1.
- Precision, recall, F1 and the mean degree are Python floats in the source. The model computes them as exact reals (`real`), so there is no rounding.
- `Synthesis.TimeSeries`: a missing attribute is checked before the loops, not at its first lookup inside them. The outcome is the same, because the exception discards the partial table.
- `Params.Graph.Parametrize`: on an empty candidate list the source raises only after writing the attributes of the nodes or edges before the failing draw. The model reports EmptyCandidates and leaves the graph untouched.
