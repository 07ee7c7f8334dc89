/** Node-deletion reduction: from the n-by-n Laplacian and an index i, the
    (n-1)-by-(n-1) matrix with row and column i removed and every surviving
    diagonal entry j lowered by the magnitude of L[j][i]. */
module Reduction {
  import opened Matrices

  /** The reduced matrix, specified entry by entry in terms of the original
      indices: off-diagonal entries are kept, shifted down past i, and the
      diagonal at j becomes L[j][j] - |L[j][i]|. */
  function Reduced(L: Matrix, i: nat): (R: Matrix)
    requires IsSquare(L, |L|) && i < |L|
    ensures IsSquare(R, |L| - 1)
    ensures forall j, k :: 0 <= j < |L| && 0 <= k < |L| && j != i && k != i && j != k ==>
      R[Shift(j, i)][Shift(k, i)] == L[j][k]
    ensures forall j :: 0 <= j < |L| && j != i ==>
      R[Shift(j, i)][Shift(j, i)] == L[j][j] - Abs(L[j][i])
  {
    var m := |L| - 1;
    seq(m, a requires 0 <= a < m =>
      seq(m, b requires 0 <= b < m =>
        if a == b then L[Skip(a, i)][Skip(a, i)] - Abs(L[Skip(a, i)][i])
        else L[Skip(a, i)][Skip(b, i)]))
  }

  /** Builds the reduced matrix in a fresh array, in the three steps of the
      source: the new diagonal, the copy without row and column i, and the
      overwrite of the copy's diagonal. L is only read: the method may modify
      nothing that existed before it was called. */
  method Reduce(L: array2<real>, i: nat) returns (A: array2<real>)
    requires L.Length0 == L.Length1 && i < L.Length0
    ensures fresh(A)
    ensures Elements(A) == Reduced(Elements(L), i)
  {
    var newDiag := DeflatedDiagonal(L, i);
    A := WithoutRowAndColumn(L, i);
    SetDiagonal(A, newDiag, i);
    ReducedEqual(Elements(A), Elements(L), i);
  }

  /** new_diag: the diagonal of L minus the magnitudes of column i. */
  method DeflatedDiagonal(L: array2<real>, i: nat) returns (d: array<real>)
    requires L.Length0 == L.Length1 && i < L.Length0
    ensures fresh(d) && d.Length == L.Length0
    ensures forall j :: 0 <= j < d.Length ==> d[j] == L[j, j] - Abs(L[j, i])
  {
    var n := L.Length0;
    d := new real[n];
    for j := 0 to n
      invariant forall t :: 0 <= t < j ==> d[t] == L[t, t] - Abs(L[t, i])
    {
      d[j] := L[j, j] - Abs(L[j, i]);
    }
  }

  /** A fresh copy of L with row i and column i removed. */
  method WithoutRowAndColumn(L: array2<real>, i: nat) returns (A: array2<real>)
    requires L.Length0 == L.Length1 && i < L.Length0
    ensures fresh(A) && A.Length0 == A.Length1 == L.Length0 - 1
    ensures forall x, y :: 0 <= x < A.Length0 && 0 <= y < A.Length1 ==> A[x, y] == L[Skip(x, i), Skip(y, i)]
  {
    var m := L.Length0 - 1;
    A := new real[m, m];
    for a := 0 to m
      invariant forall x, y :: 0 <= x < a && 0 <= y < m ==> A[x, y] == L[Skip(x, i), Skip(y, i)]
    {
      for b := 0 to m
        invariant forall x, y :: 0 <= x < a && 0 <= y < m ==> A[x, y] == L[Skip(x, i), Skip(y, i)]
        invariant forall y :: 0 <= y < b ==> A[a, y] == L[Skip(a, i), Skip(y, i)]
      {
        A[a, b] := L[Skip(a, i), Skip(b, i)];
      }
    }
  }

  /** setdiag: overwrites the diagonal of A with d, skipping entry i of d. */
  method SetDiagonal(A: array2<real>, d: array<real>, i: nat)
    requires A.Length0 == A.Length1 && d.Length == A.Length0 + 1 && i < d.Length
    modifies A
    ensures forall x :: 0 <= x < A.Length0 ==> A[x, x] == d[Skip(x, i)]
    ensures forall x, y :: 0 <= x < A.Length0 && 0 <= y < A.Length1 && x != y ==> A[x, y] == old(A[x, y])
  {
    for a := 0 to A.Length0
      invariant forall x, y :: 0 <= x < A.Length0 && 0 <= y < A.Length1 && x != y ==> A[x, y] == old(A[x, y])
      invariant forall x :: 0 <= x < a ==> A[x, x] == d[Skip(x, i)]
    {
      A[a, a] := d[Skip(a, i)];
    }
  }

  /** Two matrices agree when they agree entry by entry (used by Reduce). */
  lemma ReducedEqual(M: Matrix, L: Matrix, i: nat)
    requires IsSquare(L, |L|) && i < |L| && IsSquare(M, |L| - 1)
    requires forall a, b :: 0 <= a < |M| && 0 <= b < |M| ==>
      M[a][b] == if a == b then L[Skip(a, i)][Skip(a, i)] - Abs(L[Skip(a, i)][i])
                 else L[Skip(a, i)][Skip(b, i)]
    ensures M == Reduced(L, i)
  {
    var R := Reduced(L, i);
    forall a | 0 <= a < |M| ensures M[a] == R[a] {
      assert forall b :: 0 <= b < |M| ==> M[a][b] == R[a][b];
    }
  }

  /** Deleting a node keeps a symmetric matrix symmetric. */
  lemma {:induction false} ReducedSymmetric(L: Matrix, i: nat)
    requires IsSquare(L, |L|) && i < |L|
    requires IsSymmetric(L)
    ensures IsSymmetric(Reduced(L, i))
  {
    var R := Reduced(L, i);
    forall a, b | 0 <= a < |R| && 0 <= b < |R|
      ensures R[a][b] == R[b][a]
    {
      var j, k := Skip(a, i), Skip(b, i);
      assert Shift(j, i) == a && Shift(k, i) == b;
      if a != b {
        assert R[a][b] == L[j][k];
        assert R[b][a] == L[k][j];
      }
    }
  }

  /** When every surviving diagonal entry is at least the magnitude of the
      entry it loses (true of a Laplacian with non-negative weights), the
      reduction cannot raise the energy. */
  lemma {:induction false} ReducedEnergyAtMost(L: Matrix, i: nat)
    requires IsSquare(L, |L|) && i < |L|
    requires forall j :: 0 <= j < |L| && j != i ==> Abs(L[j][i]) <= L[j][j]
    ensures Energy(Reduced(L, i)) <= Energy(L)
  {
    var R := Reduced(L, i);
    var Rows := L[..i] + L[i + 1..];
    assert |Rows| == |R|;
    forall a | 0 <= a < |R|
      ensures SumSquares(R[a]) <= SumSquares(Rows[a])
    {
      assert Rows[a] == L[Skip(a, i)];
      ReducedRowSquaresAtMost(L, i, a);
    }
    EnergyMonotone(R, Rows);
    EnergyWithoutRow(L, i);
  }

  lemma {:induction false} ReducedRowSquaresAtMost(L: Matrix, i: nat, a: nat)
    requires IsSquare(L, |L|) && i < |L| && a < |L| - 1
    requires Abs(L[Skip(a, i)][i]) <= L[Skip(a, i)][Skip(a, i)]
    ensures SumSquares(Reduced(L, i)[a]) <= SumSquares(L[Skip(a, i)])
  {
    ReducedRowEntriesAtMost(L, i, a);
    SumSquaresMonotone(Reduced(L, i)[a], Without(L[Skip(a, i)], i));
    SumSquaresWithout(L[Skip(a, i)], i);
    SquareNonnegative(L[Skip(a, i)][i]);
  }

  lemma ReducedRowEntriesAtMost(L: Matrix, i: nat, a: nat)
    requires IsSquare(L, |L|) && i < |L| && a < |L| - 1
    requires Abs(L[Skip(a, i)][i]) <= L[Skip(a, i)][Skip(a, i)]
    ensures |Reduced(L, i)[a]| == |Without(L[Skip(a, i)], i)|
    ensures forall b :: 0 <= b < |L| - 1 ==> Abs(Reduced(L, i)[a][b]) <= Abs(Without(L[Skip(a, i)], i)[b])
  {
    forall b | 0 <= b < |L| - 1
      ensures Abs(Reduced(L, i)[a][b]) <= Abs(Without(L[Skip(a, i)], i)[b])
    {
      ReducedEntryAtMost(L, i, a, b);
    }
  }

  lemma ReducedEntryAtMost(L: Matrix, i: nat, a: nat, b: nat)
    requires IsSquare(L, |L|) && i < |L| && a < |L| - 1 && b < |L| - 1
    requires Abs(L[Skip(a, i)][i]) <= L[Skip(a, i)][Skip(a, i)]
    ensures Abs(Reduced(L, i)[a][b]) <= Abs(Without(L[Skip(a, i)], i)[b])
  {
  }
}
