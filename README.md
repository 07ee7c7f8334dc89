# Laplacian centrality

A model of networkx's `laplacian_centrality`
(`networkx/algorithms/centrality/laplacian.py`) for undirected graphs.

The Laplacian centrality of a node measures how much of the graph's
Laplacian energy goes when the node is deleted. The Laplacian energy is the
sum of the squared eigenvalues of the Laplacian matrix. Given a graph `G`,
the function:

- raises `NetworkXPointlessConcept` for the null graph;
- builds the Laplacian `L` of `G`;
- computes the energy of `L`, but only when `normalized` is set;
- visits the nodes in order. For the node at index `i` it:
  - forms the reduced matrix: it drops row and column `i`, and lowers each
    remaining diagonal entry `j` by `|L[j][i]|`;
  - takes the reduced matrix's energy `E_i`;
  - records `1 - E_i / E(L)` (normalized) or `E_i` (not normalized) in a
    dictionary keyed by the node.

The model has these modules:

- `Matrices` (`matrices.dfy`): matrices as sequences of rows of reals, row
  sums, index bookkeeping for a deleted row and column, and `Energy`.
  - `Energy` is the sum of the squared entries. For a real symmetric
    matrix, the sum of the squared eigenvalues is the trace of `M*M`, which
    is exactly that sum. So the eigenvalue solver is replaced by this
    identity, taken as the definition.
- `Reduction` (`reduction.dfy`): `Reduced`, the reduced matrix specified
  entry by entry, and `Reduce`.
  - `Reduce` builds the reduced matrix in a fresh `array2` from an `array2`
    Laplacian. It follows the source's three steps: the new diagonal, the
    copy without row and column `i`, and `setdiag`. It never writes to the
    Laplacian, and it is proved equal to `Reduced`.
- `Laplacians` (`laplacian.dfy`): the Laplacian `D - W` of an undirected
  graph given by its weight matrix, and the graph with one node deleted.
  - Central theorem: for non-negative weights, the reduction of the
    Laplacian at `i` is the Laplacian of the graph with node `i` deleted.
  - So `E_i` really is the energy of `G` minus node `i`, as the docstring
    says. Deleting a node never raises the energy.
- `Dicts` (`dicts.dfy`): the insertion-ordered Python dictionary that
  collects the scores.
- `Centrality` (`centrality.dfy`):
  - the score formula;
  - the whole-graph result as a function, `LaplacianCentralitySpec`;
  - the loop as a method, `LaplacianCentrality`, proved equal to that
    function;
  - the bounds of the normalized score.
- `Subsets` (`subsets.dfy`): the `nbunch` argument, with the finding below.
- `PinnedValues` (`pinned.dfy`): the exact results for three graphs:
  - the 3-node path;
  - the complete graph on 5 nodes;
  - the weighted graph of the docstring example.

  It also pins two places where the docstring and the code disagree.

## Model

| member | source | states |
|---|---|---|
| Matrices.Energy | networkx/algorithms/centrality/laplacian.py:94-97 | the energy (sum of squared eigenvalues, here the sum of squared entries of the symmetric matrix) is never negative |
| Matrices.Elements | networkx/algorithms/centrality/laplacian.py:96 | the dense view (`toarray`) of an n-by-m array has n rows of m entries, entry (r, c) being the array's |
| Reduction.Reduced | networkx/algorithms/centrality/laplacian.py:104-112 | the reduced matrix is (n-1)-by-(n-1); the entry for original indices j, k (both other than i, j != k) is L[j][k]; the diagonal entry for j is L[j][j] - abs(L[j][i]) |
| Reduction.Reduce | networkx/algorithms/centrality/laplacian.py:104-112 | the array built by the three steps is fresh and holds exactly the reduced matrix of L; L is not modified |
| Reduction.DeflatedDiagonal | networkx/algorithms/centrality/laplacian.py:104 | new_diag has n entries, entry j being L[j][j] minus the magnitude of L[j][i] |
| Reduction.WithoutRowAndColumn | networkx/algorithms/centrality/laplacian.py:106-110 | the copy is (n-1)-by-(n-1) and position (a, b) holds L at the original indices of a and b, skipping i |
| Reduction.SetDiagonal | networkx/algorithms/centrality/laplacian.py:112 | position a of the diagonal receives new_diag at the original index of a (entry i is skipped); every off-diagonal entry keeps its value |
| Reduction.ReducedSymmetric | networkx/algorithms/centrality/laplacian.py:114-116 | the reduced matrix of a symmetric matrix is symmetric, as the symmetric eigenvalue solver assumes |
| Reduction.ReducedEnergyAtMost | networkx/algorithms/centrality/laplacian.py:104-116 | when each surviving diagonal entry is at least the magnitude of the entry it loses, the reduced energy is at most the full energy |
| Laplacians.Laplacian | networkx/algorithms/centrality/laplacian.py:92 | the Laplacian of an n-node graph is n-by-n (entries: weighted degree on the diagonal minus the weights) |
| Laplacians.DeleteNode | networkx/algorithms/centrality/laplacian.py:26-27 | G minus node i has n-1 nodes, and the weight between original nodes j and k (both other than i) is unchanged |
| Laplacians.DeleteNodeIsWeights | networkx/algorithms/centrality/laplacian.py:26-27 | deleting a node of an undirected graph with non-negative weights leaves one |
| Laplacians.LaplacianRowsSumToZero | networkx/algorithms/centrality/laplacian.py:92 | every row of the Laplacian sums to zero |
| Laplacians.LaplacianSymmetric | networkx/algorithms/centrality/laplacian.py:92 | the Laplacian of an undirected graph is symmetric |
| Laplacians.LaplacianDiagonalDominates | networkx/algorithms/centrality/laplacian.py:104 | with non-negative weights, L[j][j] is at least abs(L[j][i]) for i != j, so new_diag is never negative |
| Laplacians.DeletionDegree | networkx/algorithms/centrality/laplacian.py:104 | after deleting node i, the degree of each other node drops by exactly the weight of its edge to i, the amount new_diag subtracts |
| Laplacians.ReducedIsLaplacianOfDeletion | networkx/algorithms/centrality/laplacian.py:104-112 | for non-negative weights the reduced matrix at i equals the Laplacian of G with node i deleted (the G_i of the docstring formula) |
| Laplacians.ReducedRowsSumToZero | networkx/algorithms/centrality/laplacian.py:104-112 | every row of the reduced matrix sums to zero, so it is again a Laplacian |
| Laplacians.ReducedLaplacianSymmetric | networkx/algorithms/centrality/laplacian.py:114-116 | the matrix handed to the symmetric eigenvalue solver is symmetric |
| Laplacians.LaplacianEnergyDecreases | networkx/algorithms/centrality/laplacian.py:15-16 | deleting any node never raises the Laplacian energy: the drop is never negative |
| Dicts.Dict.Insert | networkx/algorithms/centrality/laplacian.py:123 | assigning d[k] = v maps k to v and leaves other keys' values alone; a new key goes last in the order, an existing key keeps its place |
| Dicts.InsertValid | networkx/algorithms/centrality/laplacian.py:123 | an assignment keeps every key listed once and the key list equal to the map's keys |
| Dicts.Empty | networkx/algorithms/centrality/laplacian.py:101 | the dictionary starts empty and well formed |
| Dicts.InsertAllIsDict | networkx/algorithms/centrality/laplacian.py:101-125 | assigning distinct keys in order gives exactly the dictionary with those keys in that order and the given value map |
| Dicts.InsertAllStep | networkx/algorithms/centrality/laplacian.py:102-123 | the dictionary after j iterations is the one after j-1 iterations with the j-th assignment done |
| Dicts.InsertAll | networkx/algorithms/centrality/laplacian.py:101-123 | the dictionary after the loop is well formed, holds exactly the assigned keys, and maps the last key to the last value assigned |
| Dicts.InsertAllContents | networkx/algorithms/centrality/laplacian.py:101-125 | assigning distinct keys in order gives a well-formed dictionary that lists them in that order and maps each to its own value |
| Centrality.Score | networkx/algorithms/centrality/laplacian.py:118-121 | normalized: the score times the full energy is the full energy minus the reduced energy; otherwise the score is the reduced energy |
| Centrality.NormalizedScoreBounds | networkx/algorithms/centrality/laplacian.py:118-119 | for 0 <= E_i <= E the normalized score is in [0, 1]; it is 1 exactly when E_i = 0 and 0 exactly when E_i = E |
| Centrality.NormalizedScoreAntitone | networkx/algorithms/centrality/laplacian.py:118-119 | a smaller remaining energy gives a strictly larger normalized score |
| Centrality.BaselineEnergy | networkx/algorithms/centrality/laplacian.py:94-99 | normalized: the baseline is the energy of the whole Laplacian; otherwise it is 1; never negative |
| Centrality.NodeScore | networkx/algorithms/centrality/laplacian.py:104-121 | normalized, the score of row i is 1 minus the reduced energy at i over the full energy; unnormalized, it is the reduced energy at i, never negative |
| Centrality.NodeScores | networkx/algorithms/centrality/laplacian.py:102-121 | one score per row of L, entry i being the score of row i |
| Centrality.LaplacianCentralitySpec | networkx/algorithms/centrality/laplacian.py:82-85 | the result is the null-graph error exactly when the graph has no nodes |
| Centrality.LaplacianCentralityContents | networkx/algorithms/centrality/laplacian.py:82-125 | the null graph gives NetworkXPointlessConcept; otherwise a well-formed dictionary with the nodes as keys in the graph's order, each mapped to the score of its own row |
| Centrality.NormalizedScoreInUnitInterval | networkx/algorithms/centrality/laplacian.py:20-28 | for non-negative weights every normalized score is in [0, 1], and it is 1 exactly when G minus the node has zero Laplacian energy |
| Centrality.LaplacianCentrality | networkx/algorithms/centrality/laplacian.py:82-125 | the loop over the nodes returns exactly the whole-graph result: the null-graph error, or the dictionary of scores in node order |
| Centrality.CollectScores | networkx/algorithms/centrality/laplacian.py:101-125 | the loop over the nodes, started from the baseline energy, builds exactly the dictionary assigning each node the score of its own row, in node order |
| Centrality.ScoresStep | networkx/algorithms/centrality/laplacian.py:102-123 | one more iteration (assigning node i its score) extends the dictionary of the first i nodes to that of the first i+1 |
| Centrality.ScoreNode | networkx/algorithms/centrality/laplacian.py:104-121 | one loop iteration (reduce, take the energy, apply the formula) gives the score of row i |
| Subsets.IndexOf | networkx/algorithms/centrality/laplacian.py:102 | the row of node v is an index of the node list that holds v |
| Subsets.SubsetScoresAsWritten | networkx/algorithms/centrality/laplacian.py:102 | the keys are the subset's nodes in order, and the k-th node is mapped to the score of row k, whichever node owns that row |
| Subsets.SubsetScores | networkx/algorithms/centrality/laplacian.py:102 | the keys are the subset's nodes in order, and each node is mapped to the score of its own row |
| Subsets.SubsetScoreAgreesWithWholeGraph | networkx/algorithms/centrality/laplacian.py:102 | with each node scored from its own row, the subset result lists the subset's nodes, and each has the score the whole-graph result gives it |
| Subsets.AsWrittenAgreesOnAllNodes | networkx/algorithms/centrality/laplacian.py:102 | when the subset is every node in the graph's order, the as-written indexing gives exactly the whole-graph result |
| Subsets.PathSubsetCounterexample | networkx/algorithms/centrality/laplacian.py:102 | on the path 0-1-2 with nbunch [1], the as-written result is {1: 0.6} and the intended one is {1: 1.0} |
| PinnedValues.PathLaplacianIsDegreeMinusWeights | networkx/algorithms/centrality/laplacian.py:92 | the Laplacian of the path 0-1-2 is [[1,-1,0],[-1,2,-1],[0,-1,1]] |
| PinnedValues.PathEnergy | networkx/algorithms/centrality/laplacian.py:94-97 | the path's Laplacian energy is 10 |
| PinnedValues.PathNodeScores | networkx/algorithms/centrality/laplacian.py:104-121 | the path's normalized scores are 0.6, 1.0, 0.6 |
| PinnedValues.PathScores | networkx/algorithms/centrality/tests/test_laplacian_centrality.py:114-118 | the normalized result for the path is {0: 0.6, 1: 1.0, 2: 0.6} |
| PinnedValues.PathNormalizedScoresSum | networkx/algorithms/centrality/laplacian.py:37 | the path's normalized scores sum to 2.2, so normalization does not make the scores sum to 1 |
| PinnedValues.PathUnnormalizedScoreIsRemainingEnergy | networkx/algorithms/centrality/laplacian.py:38-39 | unnormalized, the middle node of the path scores 0 (the remaining energy) while the drop it causes is 10 |
| PinnedValues.CompleteEnergy | networkx/algorithms/centrality/laplacian.py:94-97 | the Laplacian energy of the complete graph on 5 nodes is 100 |
| PinnedValues.CompleteNodeScores | networkx/algorithms/centrality/laplacian.py:104-121 | every normalized score of the complete graph on 5 nodes is 0.52 |
| PinnedValues.CompleteScores | networkx/algorithms/centrality/tests/test_laplacian_centrality.py:120-124 | the normalized result for the complete graph on 5 nodes maps every node to 0.52 |
| PinnedValues.WeightedEnergy | networkx/algorithms/centrality/laplacian.py:55-56 | the Laplacian energy of the weighted example graph is 200 |
| PinnedValues.WeightedNodeScores | networkx/algorithms/centrality/laplacian.py:55-58 | the weighted example's normalized scores are 0.70, 0.90, 0.28, 0.22, 0.26, 0.04 |
| PinnedValues.WeightedScores | networkx/algorithms/centrality/laplacian.py:55-58 | the normalized result for the weighted example is {0: 0.70, 1: 0.90, 2: 0.28, 3: 0.22, 4: 0.26, 5: 0.04} |

## Left out

- Eigenvalues are not computed. The energy is the sum of the squared
  entries, which equals the sum of the squared eigenvalues for the
  symmetric matrices of an undirected graph. The symmetric solver `eigh`
  and its floating-point error are not modelled.
- Centrality.LaplacianCentrality: accepts any square array, and for a
  matrix that is not symmetric its energy (squared entries) is not what
  `eigh` would return. The Laplacian of an undirected graph is always
  symmetric (`Laplacians.LaplacianSymmetric`), and so is every reduced
  matrix (`Reduction.ReducedSymmetric`).
- The weighted test graph (test_laplacian_centrality.py lines 19-23) has
  the docstring's edges, added so that its nodes come in the order 0, 1, 4,
  5, 2, 3. Its expected scores are keyed by node and equal the
  docstring's. The model pins the docstring's node order 0, ..., 5
  (`PinnedValues.WeightedScores`); the test's order is not modelled.
- Floating point: scores are exact reals. The test tolerance (`abs=1e-7`)
  and the `f"{c:0.2f}"` rounding of the docstring example are not needed.
- Directed graphs (lines 87-90) are not modelled.
  `nx.directed_laplacian_matrix` is not part of this model. The reduction
  theorem and the energy bounds rely on a symmetric Laplacian.
- Multigraphs: the source leaves them allowed (the decorator is commented
  out). The model takes one weight per node pair, which is what
  `nx.laplacian_matrix` sums parallel edges into.
- The Laplacian is built from a dense weight matrix as `D - W`: the
  diagonal is the row sum minus the self-loop weight, the same as
  `nx.laplacian_matrix`. Sparse storage (`csr_matrix`, `getcol`,
  `toarray`) is modelled as dense arrays and sequences.
- Centrality.LaplacianCentrality: requires the full energy to be positive
  when `normalized` is set and the graph is not null. On a graph whose
  Laplacian is zero (no edges), the source divides 0 by 0 and gets NaN,
  which exact reals cannot represent.
- Centrality.LaplacianCentralitySpec: requires the graph not to have
  exactly one node. Then the reduced matrix is 0-by-0, and what the
  eigenvalue solver does with an empty matrix is outside this model. The
  normalized case of a one-node graph is the NaN case above anyway.
- Laplacians.ReducedIsLaplacianOfDeletion: stated for non-negative
  weights only. With a negative weight, `abs(L[j][i])` is not the weight
  of the deleted edge. The reduced matrix is then not the Laplacian of the
  smaller graph, and the normalized score can leave [0, 1]. The reduction
  itself (`Reduction.Reduced`, `Reduction.Reduce`) is modelled for every
  real matrix, negative entries included.
- nbunch: the loop method models `nbunch = None` only. Subsets are
  modelled as functions in `Subsets`, where the subset is the sequence of
  distinct graph nodes that `G.nbunch_iter` yields. Its resolution of a
  single node, of a container with non-members, and of repeated nodes is
  not modelled.
- `directed_laplacian_matrix_args` is not modelled: it is only passed to
  the directed Laplacian.
- The docstring disagrees with the code in two places, and the model
  follows the code:
  - it says normalized scores sum to 1 (`PinnedValues.PathNormalizedScoresSum`
    shows 2.2);
  - it says the unnormalized score is the drop in energy, but the code
    returns the energy that remains
    (`PinnedValues.PathUnnormalizedScoreIsRemainingEnergy`).

## Findings

| source | as written | input that shows it | evidently intended | confidence | as-written member | corrected member |
|---|---|---|---|---|---|---|
| networkx/algorithms/centrality/laplacian.py:102 | the k-th node yielded by `nbunch_iter` is scored with row and column k of the Laplacian deleted, whatever its position in the graph | the path 0-1-2 with `nbunch=[1]` gives `{1: 0.6}`, the score of node 0 | each node is scored from its own row, giving `{1: 1.0}`, the value the whole-graph call gives node 1 | not executed; follows from the indexing on line 102 | Subsets.SubsetScoresAsWritten, Subsets.PathSubsetCounterexample | Subsets.SubsetScores, Subsets.SubsetScoreAgreesWithWholeGraph |
