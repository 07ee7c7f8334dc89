/** Dense real matrices as sequences of rows, row sums, and the Laplacian
    energy that stands in for the eigenvalue solver. */
module Matrices {

  type Matrix = seq<seq<real>>

  /** M is an n-by-n matrix. */
  predicate IsSquare(M: Matrix, n: nat) {
    |M| == n && forall r :: 0 <= r < |M| ==> |M[r]| == n
  }

  predicate IsSymmetric(M: Matrix)
    requires IsSquare(M, |M|)
  {
    forall j, k :: 0 <= j < |M| && 0 <= k < |M| ==> M[j][k] == M[k][j]
  }

  function Abs(x: real): (r: real)
    ensures r >= 0.0 && (r == x || r == -x)
  {
    if x < 0.0 then -x else x
  }

  /** The contents of a 2-D array, row by row. */
  function Elements(A: array2<real>): (M: Matrix)
    reads A
    ensures IsSquare(M, A.Length0) || A.Length0 != A.Length1
    ensures |M| == A.Length0
    ensures forall r, c :: 0 <= r < A.Length0 && 0 <= c < A.Length1 ==> |M[r]| == A.Length1 && M[r][c] == A[r, c]
  {
    seq(A.Length0, r requires 0 <= r < A.Length0 reads A =>
      seq(A.Length1, c requires 0 <= c < A.Length1 reads A => A[r, c]))
  }

  /** Square matrices of one size that agree entry by entry are equal. */
  lemma SameEntries(A: Matrix, B: Matrix)
    requires IsSquare(A, |A|) && IsSquare(B, |A|)
    requires forall r, c :: 0 <= r < |A| && 0 <= c < |A| ==> A[r][c] == B[r][c]
    ensures A == B
  {
    forall r | 0 <= r < |A| ensures A[r] == B[r] {
      assert forall c :: 0 <= c < |A| ==> A[r][c] == B[r][c];
    }
  }

  // ---------------------------------------------------------------------
  // Index bookkeeping for deleting row and column i.

  /** The original index of position a of the matrix with index i deleted. */
  function Skip(a: nat, i: nat): (j: nat)
    ensures j != i && (j == a || j == a + 1)
  {
    if a < i then a else a + 1
  }

  /** The position that original index j (other than i) takes once index i is
      deleted; the inverse of Skip. */
  function Shift(j: nat, i: nat): (a: nat)
    requires j != i
    ensures Skip(a, i) == j
    ensures j < i ==> a == j
    ensures j > i ==> a == j - 1
  {
    if j < i then j else j - 1
  }

  /** The sequence s with its element at index i deleted. */
  function Without(s: seq<real>, i: nat): (t: seq<real>)
    requires i < |s|
    ensures |t| == |s| - 1
    ensures forall a :: 0 <= a < |t| ==> t[a] == s[Skip(a, i)]
  {
    s[..i] + s[i + 1..]
  }

  // ---------------------------------------------------------------------
  // Sums.

  function Sum(s: seq<real>): real {
    if s == [] then 0.0 else Sum(s[..|s| - 1]) + s[|s| - 1]
  }

  function Neg(s: seq<real>): (t: seq<real>)
    ensures |t| == |s| && forall k :: 0 <= k < |s| ==> t[k] == -s[k]
  {
    seq(|s|, k requires 0 <= k < |s| => -s[k])
  }

  lemma {:induction false} SumConcat(a: seq<real>, b: seq<real>)
    ensures Sum(a + b) == Sum(a) + Sum(b)
  {
    if b != [] {
      assert (a + b)[..|a + b| - 1] == a + b[..|b| - 1];
      SumConcat(a, b[..|b| - 1]);
    } else {
      assert a + b == a;
    }
  }

  /** Deleting one element lowers the sum by exactly that element. */
  lemma {:induction false} SumWithout(s: seq<real>, i: nat)
    requires i < |s|
    ensures Sum(Without(s, i)) == Sum(s) - s[i]
  {
    var pre, post := s[..i], s[i + 1..];
    assert s == (pre + [s[i]]) + post;
    assert Sum([s[i]]) == s[i] by { assert [s[i]][..0] == []; }
    SumConcat(pre + [s[i]], post);
    SumConcat(pre, [s[i]]);
    SumConcat(pre, post);
  }

  lemma {:induction false} SumNeg(s: seq<real>)
    ensures Sum(Neg(s)) == -Sum(s)
  {
    if s != [] {
      assert Neg(s)[..|s| - 1] == Neg(s[..|s| - 1]);
      SumNeg(s[..|s| - 1]);
    }
  }

  /** Adding c to one element adds c to the sum. */
  lemma {:induction false} SumUpdate(s: seq<real>, k: nat, c: real)
    requires k < |s|
    ensures Sum(s[k := s[k] + c]) == Sum(s) + c
  {
    var t := s[k := s[k] + c];
    if k == |s| - 1 {
      assert t[..|t| - 1] == s[..|s| - 1];
    } else {
      assert t[..|t| - 1] == s[..|s| - 1][k := s[k] + c];
      SumUpdate(s[..|s| - 1], k, c);
    }
  }

  /** A sum of non-negative reals is at least any two of its distinct terms. */
  lemma {:induction false} SumAtLeastTwoTerms(s: seq<real>, j: nat, k: nat)
    requires j < |s| && k < |s| && j != k
    requires forall t :: 0 <= t < |s| ==> s[t] >= 0.0
    ensures Sum(s) >= s[j] + s[k]
  {
    var last := |s| - 1;
    if j == last || k == last {
      var other := if j == last then k else j;
      SumAtLeastOneTerm(s[..last], other);
    } else {
      SumAtLeastTwoTerms(s[..last], j, k);
    }
  }

  lemma {:induction false} SumAtLeastOneTerm(s: seq<real>, j: nat)
    requires j < |s|
    requires forall t :: 0 <= t < |s| ==> s[t] >= 0.0
    ensures Sum(s) >= s[j]
  {
    var last := |s| - 1;
    SumNonnegative(s[..last]);
    if j != last {
      SumAtLeastOneTerm(s[..last], j);
    }
  }

  lemma {:induction false} SumNonnegative(s: seq<real>)
    requires forall t :: 0 <= t < |s| ==> s[t] >= 0.0
    ensures Sum(s) >= 0.0
  {
    if s != [] {
      SumNonnegative(s[..|s| - 1]);
    }
  }

  // ---------------------------------------------------------------------
  // Laplacian energy.

  /** The sum of the squares of the entries of one row. */
  function SumSquares(s: seq<real>): (r: real)
    ensures r >= 0.0
  {
    if s == [] then 0.0 else SumSquares(s[..|s| - 1]) + s[|s| - 1] * s[|s| - 1]
  }

  /** The Laplacian energy of M. For a real symmetric matrix the sum of the
      squared eigenvalues equals the trace of M*M, which is the sum of the
      squared entries; that identity is taken here as the definition, so no
      eigenvalues are computed. */
  function Energy(M: Matrix): (e: real)
    ensures e >= 0.0
  {
    if M == [] then 0.0 else Energy(M[..|M| - 1]) + SumSquares(M[|M| - 1])
  }

  lemma {:induction false} SumSquaresConcat(a: seq<real>, b: seq<real>)
    ensures SumSquares(a + b) == SumSquares(a) + SumSquares(b)
  {
    if b != [] {
      assert (a + b)[..|a + b| - 1] == a + b[..|b| - 1];
      SumSquaresConcat(a, b[..|b| - 1]);
    } else {
      assert a + b == a;
    }
  }

  lemma {:induction false} SumSquaresWithout(s: seq<real>, i: nat)
    requires i < |s|
    ensures SumSquares(Without(s, i)) == SumSquares(s) - s[i] * s[i]
  {
    var pre, post := s[..i], s[i + 1..];
    assert s == (pre + [s[i]]) + post;
    assert SumSquares([s[i]]) == s[i] * s[i] by { assert [s[i]][..0] == []; }
    SumSquaresConcat(pre + [s[i]], post);
    SumSquaresConcat(pre, [s[i]]);
    SumSquaresConcat(pre, post);
  }

  lemma MulNonnegative(x: real, y: real)
    requires x >= 0.0 && y >= 0.0
    ensures x * y >= 0.0
  {
  }

  lemma SquareNonnegative(x: real)
    ensures x * x >= 0.0
  {
    MulNonnegative(Abs(x), Abs(x));
    assert x * x == Abs(x) * Abs(x);
  }

  lemma SquareMonotone(x: real, y: real)
    requires Abs(x) <= Abs(y)
    ensures x * x <= y * y
  {
    var ax, ay := Abs(x), Abs(y);
    MulNonnegative(ax, ay - ax);
    MulNonnegative(ay, ay - ax);
    assert x * x == ax * ax;
    assert y * y == ay * ay;
    assert ax * ay - ax * ax == ax * (ay - ax);
    assert ay * ay - ax * ay == ay * (ay - ax);
  }

  /** Entrywise smaller magnitudes give a smaller sum of squares. */
  lemma {:induction false} SumSquaresMonotone(a: seq<real>, b: seq<real>)
    requires |a| == |b|
    requires forall k :: 0 <= k < |a| ==> Abs(a[k]) <= Abs(b[k])
    ensures SumSquares(a) <= SumSquares(b)
  {
    if a != [] {
      var x, y := a[|a| - 1], b[|b| - 1];
      SumSquaresMonotone(a[..|a| - 1], b[..|b| - 1]);
      SquareMonotone(x, y);
      assert SumSquares(a) == SumSquares(a[..|a| - 1]) + x * x;
      assert SumSquares(b) == SumSquares(b[..|b| - 1]) + y * y;
    }
  }

  lemma {:induction false} EnergyConcat(A: Matrix, B: Matrix)
    ensures Energy(A + B) == Energy(A) + Energy(B)
  {
    if B != [] {
      assert (A + B)[..|A + B| - 1] == A + B[..|B| - 1];
      EnergyConcat(A, B[..|B| - 1]);
    } else {
      assert A + B == A;
    }
  }

  /** Deleting row i removes exactly that row's squares from the energy. */
  lemma {:induction false} EnergyWithoutRow(M: Matrix, i: nat)
    requires i < |M|
    ensures Energy(M[..i] + M[i + 1..]) == Energy(M) - SumSquares(M[i])
  {
    var pre, post := M[..i], M[i + 1..];
    assert M == (pre + [M[i]]) + post;
    assert Energy([M[i]]) == SumSquares(M[i]) by { assert [M[i]][..0] == []; }
    EnergyConcat(pre + [M[i]], post);
    EnergyConcat(pre, [M[i]]);
    EnergyConcat(pre, post);
  }

  /** Row by row smaller sums of squares give a smaller energy. */
  lemma {:induction false} EnergyMonotone(A: Matrix, B: Matrix)
    requires |A| == |B|
    requires forall r :: 0 <= r < |A| ==> SumSquares(A[r]) <= SumSquares(B[r])
    ensures Energy(A) <= Energy(B)
  {
    if A != [] {
      EnergyMonotone(A[..|A| - 1], B[..|B| - 1]);
    }
  }
}
