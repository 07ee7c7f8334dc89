/** The Laplacian D - W of an undirected weighted graph on nodes 0..n-1,
    given by its weight matrix W (W[j][k] is the weight of edge {j, k}, 0
    where there is no edge), and the graph with one node deleted. */
module Laplacians {
  import opened Matrices
  import opened Reduction

  /** A weight matrix of an undirected graph with non-negative weights. */
  predicate IsWeights(W: Matrix) {
    IsSquare(W, |W|) && IsSymmetric(W) &&
    forall j, k :: 0 <= j < |W| && 0 <= k < |W| ==> W[j][k] >= 0.0
  }

  /** The weighted degree of node j. */
  function Degree(W: Matrix, j: nat): real
    requires j < |W|
  {
    Sum(W[j])
  }

  /** D - W: the weighted degree on the diagonal minus the weights. A
      self-loop contributes to the degree and is subtracted again, so only
      edges to other nodes are counted on the diagonal. */
  function Laplacian(W: Matrix): (L: Matrix)
    requires IsSquare(W, |W|)
    ensures IsSquare(L, |W|)
  {
    var n := |W|;
    seq(n, j requires 0 <= j < n =>
      seq(n, k requires 0 <= k < n =>
        (if j == k then Degree(W, j) else 0.0) - W[j][k]))
  }

  /** The weights of the graph with node i and its edges deleted, nodes above
      i renumbered one down. */
  function DeleteNode(W: Matrix, i: nat): (V: Matrix)
    requires IsSquare(W, |W|) && i < |W|
    ensures IsSquare(V, |W| - 1)
    ensures forall j, k :: 0 <= j < |W| && 0 <= k < |W| && j != i && k != i ==>
      V[Shift(j, i)][Shift(k, i)] == W[j][k]
  {
    var m := |W| - 1;
    seq(m, a requires 0 <= a < m => seq(m, b requires 0 <= b < m => W[Skip(a, i)][Skip(b, i)]))
  }

  /** Deleting a node of an undirected graph with non-negative weights leaves
      an undirected graph with non-negative weights. */
  lemma {:induction false} DeleteNodeIsWeights(W: Matrix, i: nat)
    requires IsWeights(W) && i < |W|
    ensures IsWeights(DeleteNode(W, i))
  {
    var V := DeleteNode(W, i);
    forall a, b | 0 <= a < |V| && 0 <= b < |V|
      ensures V[a][b] == V[b][a] && V[a][b] >= 0.0
    {
      assert V[a][b] == W[Skip(a, i)][Skip(b, i)];
    }
  }

  /** Every row of a Laplacian sums to zero. */
  lemma {:induction false} LaplacianRowsSumToZero(W: Matrix, j: nat)
    requires IsSquare(W, |W|) && j < |W|
    ensures Sum(Laplacian(W)[j]) == 0.0
  {
    var row := Neg(W[j]);
    assert Laplacian(W)[j] == row[j := row[j] + Degree(W, j)];
    SumUpdate(row, j, Degree(W, j));
    SumNeg(W[j]);
  }

  /** The Laplacian of an undirected graph is symmetric. */
  lemma {:induction false} LaplacianSymmetric(W: Matrix)
    requires IsSquare(W, |W|) && IsSymmetric(W)
    ensures IsSymmetric(Laplacian(W))
  {
  }

  /** With non-negative weights, each diagonal entry is the weight of the
      node's edges to other nodes, so it is at least the magnitude of any one
      off-diagonal entry in its row. */
  lemma {:induction false} LaplacianDiagonalDominates(W: Matrix, j: nat, i: nat)
    requires IsWeights(W) && j < |W| && i < |W| && j != i
    ensures Abs(Laplacian(W)[j][i]) <= Laplacian(W)[j][j]
  {
    SumAtLeastTwoTerms(W[j], i, j);
  }

  /** The reduction of the Laplacian at i is the Laplacian of the graph with
      node i deleted: dropping row and column i removes i's edges from the
      off-diagonal part, and subtracting |L[j][i]| = W[j][i] removes the
      weight of edge {j, i} from the degree of j. */
  lemma {:induction false} ReducedIsLaplacianOfDeletion(W: Matrix, i: nat)
    requires IsSquare(W, |W|) && i < |W|
    requires forall j, k :: 0 <= j < |W| && 0 <= k < |W| ==> W[j][k] >= 0.0
    ensures Reduced(Laplacian(W), i) == Laplacian(DeleteNode(W, i))
  {
    var L := Laplacian(W);
    var V := DeleteNode(W, i);
    var R := Reduced(L, i);
    var Q := Laplacian(V);
    forall a, b | 0 <= a < |R| && 0 <= b < |R|
      ensures R[a][b] == Q[a][b]
    {
      if a == b {
        DeletionDegree(W, i, a);
      }
    }
    SameEntries(R, Q);
  }

  /** The degree of a node after deleting node i drops by exactly the weight
      of its edge to i. */
  lemma DeletionDegree(W: Matrix, i: nat, a: nat)
    requires IsSquare(W, |W|) && i < |W| && a < |W| - 1
    ensures Degree(DeleteNode(W, i), a) == Degree(W, Skip(a, i)) - W[Skip(a, i)][i]
  {
    var j := Skip(a, i);
    assert DeleteNode(W, i)[a] == Without(W[j], i);
    SumWithout(W[j], i);
  }

  /** Every row of the reduced matrix still sums to zero. */
  lemma ReducedRowsSumToZero(W: Matrix, i: nat, a: nat)
    requires IsSquare(W, |W|) && i < |W| && a < |W| - 1
    requires forall j, k :: 0 <= j < |W| && 0 <= k < |W| ==> W[j][k] >= 0.0
    ensures Sum(Reduced(Laplacian(W), i)[a]) == 0.0
  {
    ReducedIsLaplacianOfDeletion(W, i);
    LaplacianRowsSumToZero(DeleteNode(W, i), a);
  }

  /** The reduced matrix of an undirected graph's Laplacian is symmetric. */
  lemma ReducedLaplacianSymmetric(W: Matrix, i: nat)
    requires IsWeights(W) && i < |W|
    ensures IsSymmetric(Reduced(Laplacian(W), i))
  {
    LaplacianSymmetric(W);
    ReducedSymmetric(Laplacian(W), i);
  }

  /** Deleting a node never raises the Laplacian energy. */
  lemma LaplacianEnergyDecreases(W: Matrix, i: nat)
    requires IsWeights(W) && i < |W|
    ensures Energy(Reduced(Laplacian(W), i)) <= Energy(Laplacian(W))
  {
    var L := Laplacian(W);
    forall j | 0 <= j < |L| && j != i
      ensures Abs(L[j][i]) <= L[j][j]
    {
      LaplacianDiagonalDominates(W, j, i);
    }
    ReducedEnergyAtMost(L, i);
  }
}
