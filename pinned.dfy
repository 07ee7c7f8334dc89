/** The values pinned by the test suite and the docstring example, computed
    exactly: the path 0-1-2, the complete graph on five nodes, and the
    weighted six-node graph. Energies are sums of squared entries, so every
    score here is an exact rational. */
module PinnedValues {
  import opened Matrices
  import opened Reduction
  import opened Laplacians
  import opened Dicts
  import opened Centrality

  // ---------------------------------------------------------------------
  // Unfolding the sums for short sequences.

  lemma {:induction false} SumOf3(s: seq<real>)
    requires |s| == 3
    ensures Sum(s) == s[0] + s[1] + s[2]
  {
    assert Sum(s[..1]) == s[0] by { assert s[..1][..0] == s[..0]; }
    assert Sum(s[..2]) == Sum(s[..1]) + s[1] by { assert s[..2][..1] == s[..1]; }
    assert Sum(s[..3]) == Sum(s[..2]) + s[2] by { assert s[..3][..2] == s[..2]; }
    assert s[..3] == s;
  }

  lemma {:induction false} SumOf5(s: seq<real>)
    requires |s| == 5
    ensures Sum(s) == s[0] + s[1] + s[2] + s[3] + s[4]
  {
    assert Sum(s[..1]) == s[0] by { assert s[..1][..0] == s[..0]; }
    assert Sum(s[..2]) == Sum(s[..1]) + s[1] by { assert s[..2][..1] == s[..1]; }
    assert Sum(s[..3]) == Sum(s[..2]) + s[2] by { assert s[..3][..2] == s[..2]; }
    assert Sum(s[..4]) == Sum(s[..3]) + s[3] by { assert s[..4][..3] == s[..3]; }
    assert Sum(s[..5]) == Sum(s[..4]) + s[4] by { assert s[..5][..4] == s[..4]; }
    assert s[..5] == s;
  }

  lemma {:induction false} SumOf6(s: seq<real>)
    requires |s| == 6
    ensures Sum(s) == s[0] + s[1] + s[2] + s[3] + s[4] + s[5]
  {
    assert Sum(s[..1]) == s[0] by { assert s[..1][..0] == s[..0]; }
    assert Sum(s[..2]) == Sum(s[..1]) + s[1] by { assert s[..2][..1] == s[..1]; }
    assert Sum(s[..3]) == Sum(s[..2]) + s[2] by { assert s[..3][..2] == s[..2]; }
    assert Sum(s[..4]) == Sum(s[..3]) + s[3] by { assert s[..4][..3] == s[..3]; }
    assert Sum(s[..5]) == Sum(s[..4]) + s[4] by { assert s[..5][..4] == s[..4]; }
    assert Sum(s[..6]) == Sum(s[..5]) + s[5] by { assert s[..6][..5] == s[..5]; }
    assert s[..6] == s;
  }

  lemma {:induction false} SumSquaresOf2(s: seq<real>)
    requires |s| == 2
    ensures SumSquares(s) == s[0] * s[0] + s[1] * s[1]
  {
    assert SumSquares(s[..1]) == s[0] * s[0] by { assert s[..1][..0] == s[..0]; }
    assert SumSquares(s[..2]) == SumSquares(s[..1]) + s[1] * s[1] by { assert s[..2][..1] == s[..1]; }
    assert s[..2] == s;
  }

  lemma {:induction false} SumSquaresOf3(s: seq<real>)
    requires |s| == 3
    ensures SumSquares(s) == s[0] * s[0] + s[1] * s[1] + s[2] * s[2]
  {
    assert SumSquares(s[..1]) == s[0] * s[0] by { assert s[..1][..0] == s[..0]; }
    assert SumSquares(s[..2]) == SumSquares(s[..1]) + s[1] * s[1] by { assert s[..2][..1] == s[..1]; }
    assert SumSquares(s[..3]) == SumSquares(s[..2]) + s[2] * s[2] by { assert s[..3][..2] == s[..2]; }
    assert s[..3] == s;
  }

  lemma {:induction false} SumSquaresOf4(s: seq<real>)
    requires |s| == 4
    ensures SumSquares(s) == s[0] * s[0] + s[1] * s[1] + s[2] * s[2] + s[3] * s[3]
  {
    assert SumSquares(s[..1]) == s[0] * s[0] by { assert s[..1][..0] == s[..0]; }
    assert SumSquares(s[..2]) == SumSquares(s[..1]) + s[1] * s[1] by { assert s[..2][..1] == s[..1]; }
    assert SumSquares(s[..3]) == SumSquares(s[..2]) + s[2] * s[2] by { assert s[..3][..2] == s[..2]; }
    assert SumSquares(s[..4]) == SumSquares(s[..3]) + s[3] * s[3] by { assert s[..4][..3] == s[..3]; }
    assert s[..4] == s;
  }

  lemma {:induction false} SumSquaresOf5(s: seq<real>)
    requires |s| == 5
    ensures SumSquares(s) == s[0] * s[0] + s[1] * s[1] + s[2] * s[2] + s[3] * s[3] + s[4] * s[4]
  {
    assert SumSquares(s[..1]) == s[0] * s[0] by { assert s[..1][..0] == s[..0]; }
    assert SumSquares(s[..2]) == SumSquares(s[..1]) + s[1] * s[1] by { assert s[..2][..1] == s[..1]; }
    assert SumSquares(s[..3]) == SumSquares(s[..2]) + s[2] * s[2] by { assert s[..3][..2] == s[..2]; }
    assert SumSquares(s[..4]) == SumSquares(s[..3]) + s[3] * s[3] by { assert s[..4][..3] == s[..3]; }
    assert SumSquares(s[..5]) == SumSquares(s[..4]) + s[4] * s[4] by { assert s[..5][..4] == s[..4]; }
    assert s[..5] == s;
  }

  lemma {:induction false} SumSquaresOf6(s: seq<real>)
    requires |s| == 6
    ensures SumSquares(s) == s[0] * s[0] + s[1] * s[1] + s[2] * s[2] + s[3] * s[3] + s[4] * s[4] + s[5] * s[5]
  {
    assert SumSquares(s[..1]) == s[0] * s[0] by { assert s[..1][..0] == s[..0]; }
    assert SumSquares(s[..2]) == SumSquares(s[..1]) + s[1] * s[1] by { assert s[..2][..1] == s[..1]; }
    assert SumSquares(s[..3]) == SumSquares(s[..2]) + s[2] * s[2] by { assert s[..3][..2] == s[..2]; }
    assert SumSquares(s[..4]) == SumSquares(s[..3]) + s[3] * s[3] by { assert s[..4][..3] == s[..3]; }
    assert SumSquares(s[..5]) == SumSquares(s[..4]) + s[4] * s[4] by { assert s[..5][..4] == s[..4]; }
    assert SumSquares(s[..6]) == SumSquares(s[..5]) + s[5] * s[5] by { assert s[..6][..5] == s[..5]; }
    assert s[..6] == s;
  }

  lemma {:induction false} EnergyOf2(s: Matrix)
    requires |s| == 2
    ensures Energy(s) == SumSquares(s[0]) + SumSquares(s[1])
  {
    assert Energy(s[..1]) == SumSquares(s[0]) by { assert s[..1][..0] == s[..0]; }
    assert Energy(s[..2]) == Energy(s[..1]) + SumSquares(s[1]) by { assert s[..2][..1] == s[..1]; }
    assert s[..2] == s;
  }

  lemma {:induction false} EnergyOf3(s: Matrix)
    requires |s| == 3
    ensures Energy(s) == SumSquares(s[0]) + SumSquares(s[1]) + SumSquares(s[2])
  {
    assert Energy(s[..1]) == SumSquares(s[0]) by { assert s[..1][..0] == s[..0]; }
    assert Energy(s[..2]) == Energy(s[..1]) + SumSquares(s[1]) by { assert s[..2][..1] == s[..1]; }
    assert Energy(s[..3]) == Energy(s[..2]) + SumSquares(s[2]) by { assert s[..3][..2] == s[..2]; }
    assert s[..3] == s;
  }

  lemma {:induction false} EnergyOf4(s: Matrix)
    requires |s| == 4
    ensures Energy(s) == SumSquares(s[0]) + SumSquares(s[1]) + SumSquares(s[2]) + SumSquares(s[3])
  {
    assert Energy(s[..1]) == SumSquares(s[0]) by { assert s[..1][..0] == s[..0]; }
    assert Energy(s[..2]) == Energy(s[..1]) + SumSquares(s[1]) by { assert s[..2][..1] == s[..1]; }
    assert Energy(s[..3]) == Energy(s[..2]) + SumSquares(s[2]) by { assert s[..3][..2] == s[..2]; }
    assert Energy(s[..4]) == Energy(s[..3]) + SumSquares(s[3]) by { assert s[..4][..3] == s[..3]; }
    assert s[..4] == s;
  }

  lemma {:induction false} EnergyOf5(s: Matrix)
    requires |s| == 5
    ensures Energy(s) == SumSquares(s[0]) + SumSquares(s[1]) + SumSquares(s[2]) + SumSquares(s[3]) + SumSquares(s[4])
  {
    assert Energy(s[..1]) == SumSquares(s[0]) by { assert s[..1][..0] == s[..0]; }
    assert Energy(s[..2]) == Energy(s[..1]) + SumSquares(s[1]) by { assert s[..2][..1] == s[..1]; }
    assert Energy(s[..3]) == Energy(s[..2]) + SumSquares(s[2]) by { assert s[..3][..2] == s[..2]; }
    assert Energy(s[..4]) == Energy(s[..3]) + SumSquares(s[3]) by { assert s[..4][..3] == s[..3]; }
    assert Energy(s[..5]) == Energy(s[..4]) + SumSquares(s[4]) by { assert s[..5][..4] == s[..4]; }
    assert s[..5] == s;
  }

  lemma {:induction false} EnergyOf6(s: Matrix)
    requires |s| == 6
    ensures Energy(s) == SumSquares(s[0]) + SumSquares(s[1]) + SumSquares(s[2]) + SumSquares(s[3]) + SumSquares(s[4]) + SumSquares(s[5])
  {
    assert Energy(s[..1]) == SumSquares(s[0]) by { assert s[..1][..0] == s[..0]; }
    assert Energy(s[..2]) == Energy(s[..1]) + SumSquares(s[1]) by { assert s[..2][..1] == s[..1]; }
    assert Energy(s[..3]) == Energy(s[..2]) + SumSquares(s[2]) by { assert s[..3][..2] == s[..2]; }
    assert Energy(s[..4]) == Energy(s[..3]) + SumSquares(s[3]) by { assert s[..4][..3] == s[..3]; }
    assert Energy(s[..5]) == Energy(s[..4]) + SumSquares(s[4]) by { assert s[..5][..4] == s[..4]; }
    assert Energy(s[..6]) == Energy(s[..5]) + SumSquares(s[5]) by { assert s[..6][..5] == s[..5]; }
    assert s[..6] == s;
  }

  // ---------------------------------------------------------------------
  // The path 0-1-2 (unweighted).

  const PathWeights: Matrix := [
    [0.0, 1.0, 0.0],
    [1.0, 0.0, 1.0],
    [0.0, 1.0, 0.0]]

  const PathLaplacian: Matrix := [
    [1.0, -1.0, 0.0],
    [-1.0, 2.0, -1.0],
    [0.0, -1.0, 1.0]]

  lemma PathLaplacianIsDegreeMinusWeights()
    ensures Laplacian(PathWeights) == PathLaplacian
  {
    var W := PathWeights;
    SumOf3(W[0]);
    SumOf3(W[1]);
    SumOf3(W[2]);
    SameEntries(Laplacian(W), PathLaplacian);
  }

  lemma PathEnergy()
    ensures Energy(PathLaplacian) == 10.0
  {
    var L := PathLaplacian;
    EnergyOf3(L);
    SumSquaresOf3(L[0]);
    SumSquaresOf3(L[1]);
    SumSquaresOf3(L[2]);
  }

  lemma PathReduction0()
    ensures Reduced(PathLaplacian, 0) == [
      [1.0, -1.0],
      [-1.0, 1.0]]
  {
    var R := Reduced(PathLaplacian, 0);
    assert R[0] == [1.0, -1.0];
    assert R[1] == [-1.0, 1.0];
  }

  lemma PathReducedMatrixEnergy0()
    ensures Energy([
      [1.0, -1.0],
      [-1.0, 1.0]]) == 4.0
  {
    var R := [
      [1.0, -1.0],
      [-1.0, 1.0]];
    EnergyOf2(R);
    SumSquaresOf2(R[0]);
    SumSquaresOf2(R[1]);
  }

  lemma PathReducedEnergy0()
    ensures Energy(Reduced(PathLaplacian, 0)) == 4.0
  {
    PathReduction0();
    PathReducedMatrixEnergy0();
  }

  lemma PathReduction1()
    ensures Reduced(PathLaplacian, 1) == [
      [0.0, 0.0],
      [0.0, 0.0]]
  {
    var R := Reduced(PathLaplacian, 1);
    assert R[0] == [0.0, 0.0];
    assert R[1] == [0.0, 0.0];
  }

  lemma PathReducedMatrixEnergy1()
    ensures Energy([
      [0.0, 0.0],
      [0.0, 0.0]]) == 0.0
  {
    var R := [
      [0.0, 0.0],
      [0.0, 0.0]];
    EnergyOf2(R);
    SumSquaresOf2(R[0]);
    SumSquaresOf2(R[1]);
  }

  lemma PathReducedEnergy1()
    ensures Energy(Reduced(PathLaplacian, 1)) == 0.0
  {
    PathReduction1();
    PathReducedMatrixEnergy1();
  }

  lemma PathReduction2()
    ensures Reduced(PathLaplacian, 2) == [
      [1.0, -1.0],
      [-1.0, 1.0]]
  {
    var R := Reduced(PathLaplacian, 2);
    assert R[0] == [1.0, -1.0];
    assert R[1] == [-1.0, 1.0];
  }

  lemma PathReducedMatrixEnergy2()
    ensures Energy([
      [1.0, -1.0],
      [-1.0, 1.0]]) == 4.0
  {
    var R := [
      [1.0, -1.0],
      [-1.0, 1.0]];
    EnergyOf2(R);
    SumSquaresOf2(R[0]);
    SumSquaresOf2(R[1]);
  }

  lemma PathReducedEnergy2()
    ensures Energy(Reduced(PathLaplacian, 2)) == 4.0
  {
    PathReduction2();
    PathReducedMatrixEnergy2();
  }

  lemma PathNodeScores()
    ensures NodeScores(PathLaplacian, true) == [0.6, 1.0, 0.6]
  {
    PathEnergy();
    PathReducedEnergy0();
    PathReducedEnergy1();
    PathReducedEnergy2();
  }

  /** Distinct keys assigned in order give the dictionary of those keys in
      that order, each with its own value. */
  lemma PathDict()
    ensures InsertAll([0, 1, 2], [0.6, 1.0, 0.6]) == Dict([0, 1, 2], map[0 := 0.6, 1 := 1.0, 2 := 0.6])
  {
    InsertAllIsDict([0, 1, 2], [0.6, 1.0, 0.6], map[0 := 0.6, 1 := 1.0, 2 := 0.6]);
  }

  /** Path 0-1-2: {0: 0.6, 1: 1.0, 2: 0.6}. */
  lemma PathScores()
    ensures LaplacianCentralitySpec([0, 1, 2], Laplacian(PathWeights), true) ==
      Success(Dict([0, 1, 2], map[0 := 0.6, 1 := 1.0, 2 := 0.6]))
  {
    PathLaplacianIsDegreeMinusWeights();
    PathEnergy();
    PathNodeScores();
    PathDict();
  }

  /** The normalized scores of the path add up to 2.2, not to 1: the
      normalization divides by the full energy, it does not make the scores
      a distribution. */
  lemma PathNormalizedScoresSum()
    ensures Sum(NodeScores(PathLaplacian, true)) == 2.2
  {
    PathNodeScores();
    SumOf3(NodeScores(PathLaplacian, true));
  }

  /** Unnormalized, the middle node of the path scores 0, the energy left
      once it is deleted, while the drop in energy it causes is 10. */
  lemma PathUnnormalizedScoreIsRemainingEnergy()
    ensures NodeScore(PathLaplacian, 1, false) == 0.0
    ensures Energy(PathLaplacian) - Energy(Reduced(PathLaplacian, 1)) == 10.0
  {
    PathEnergy();
    PathReducedEnergy1();
  }

  // ---------------------------------------------------------------------
  // The complete graph on five nodes (unweighted).

  const CompleteWeights: Matrix := [
    [0.0, 1.0, 1.0, 1.0, 1.0],
    [1.0, 0.0, 1.0, 1.0, 1.0],
    [1.0, 1.0, 0.0, 1.0, 1.0],
    [1.0, 1.0, 1.0, 0.0, 1.0],
    [1.0, 1.0, 1.0, 1.0, 0.0]]

  const CompleteLaplacian: Matrix := [
    [4.0, -1.0, -1.0, -1.0, -1.0],
    [-1.0, 4.0, -1.0, -1.0, -1.0],
    [-1.0, -1.0, 4.0, -1.0, -1.0],
    [-1.0, -1.0, -1.0, 4.0, -1.0],
    [-1.0, -1.0, -1.0, -1.0, 4.0]]

  lemma CompleteLaplacianIsDegreeMinusWeights()
    ensures Laplacian(CompleteWeights) == CompleteLaplacian
  {
    var W := CompleteWeights;
    SumOf5(W[0]);
    SumOf5(W[1]);
    SumOf5(W[2]);
    SumOf5(W[3]);
    SumOf5(W[4]);
    SameEntries(Laplacian(W), CompleteLaplacian);
  }

  lemma CompleteEnergy()
    ensures Energy(CompleteLaplacian) == 100.0
  {
    var L := CompleteLaplacian;
    EnergyOf5(L);
    SumSquaresOf5(L[0]);
    SumSquaresOf5(L[1]);
    SumSquaresOf5(L[2]);
    SumSquaresOf5(L[3]);
    SumSquaresOf5(L[4]);
  }

  lemma CompleteReduction0Row0()
    ensures Reduced(CompleteLaplacian, 0)[0] == [3.0, -1.0, -1.0, -1.0]
  {
  }

  lemma CompleteReduction0Row1()
    ensures Reduced(CompleteLaplacian, 0)[1] == [-1.0, 3.0, -1.0, -1.0]
  {
  }

  lemma CompleteReduction0Row2()
    ensures Reduced(CompleteLaplacian, 0)[2] == [-1.0, -1.0, 3.0, -1.0]
  {
  }

  lemma CompleteReduction0Row3()
    ensures Reduced(CompleteLaplacian, 0)[3] == [-1.0, -1.0, -1.0, 3.0]
  {
  }

  lemma CompleteReduction0()
    ensures Reduced(CompleteLaplacian, 0) == [
      [3.0, -1.0, -1.0, -1.0],
      [-1.0, 3.0, -1.0, -1.0],
      [-1.0, -1.0, 3.0, -1.0],
      [-1.0, -1.0, -1.0, 3.0]]
  {
    var R := Reduced(CompleteLaplacian, 0);
    CompleteReduction0Row0();
    CompleteReduction0Row1();
    CompleteReduction0Row2();
    CompleteReduction0Row3();
  }

  lemma CompleteReducedMatrixEnergy0()
    ensures Energy([
      [3.0, -1.0, -1.0, -1.0],
      [-1.0, 3.0, -1.0, -1.0],
      [-1.0, -1.0, 3.0, -1.0],
      [-1.0, -1.0, -1.0, 3.0]]) == 48.0
  {
    var R := [
      [3.0, -1.0, -1.0, -1.0],
      [-1.0, 3.0, -1.0, -1.0],
      [-1.0, -1.0, 3.0, -1.0],
      [-1.0, -1.0, -1.0, 3.0]];
    EnergyOf4(R);
    SumSquaresOf4(R[0]);
    SumSquaresOf4(R[1]);
    SumSquaresOf4(R[2]);
    SumSquaresOf4(R[3]);
  }

  lemma CompleteReducedEnergy0()
    ensures Energy(Reduced(CompleteLaplacian, 0)) == 48.0
  {
    CompleteReduction0();
    CompleteReducedMatrixEnergy0();
  }

  lemma CompleteReduction1Row0()
    ensures Reduced(CompleteLaplacian, 1)[0] == [3.0, -1.0, -1.0, -1.0]
  {
  }

  lemma CompleteReduction1Row1()
    ensures Reduced(CompleteLaplacian, 1)[1] == [-1.0, 3.0, -1.0, -1.0]
  {
  }

  lemma CompleteReduction1Row2()
    ensures Reduced(CompleteLaplacian, 1)[2] == [-1.0, -1.0, 3.0, -1.0]
  {
  }

  lemma CompleteReduction1Row3()
    ensures Reduced(CompleteLaplacian, 1)[3] == [-1.0, -1.0, -1.0, 3.0]
  {
  }

  lemma CompleteReduction1()
    ensures Reduced(CompleteLaplacian, 1) == [
      [3.0, -1.0, -1.0, -1.0],
      [-1.0, 3.0, -1.0, -1.0],
      [-1.0, -1.0, 3.0, -1.0],
      [-1.0, -1.0, -1.0, 3.0]]
  {
    var R := Reduced(CompleteLaplacian, 1);
    CompleteReduction1Row0();
    CompleteReduction1Row1();
    CompleteReduction1Row2();
    CompleteReduction1Row3();
  }

  lemma CompleteReducedMatrixEnergy1()
    ensures Energy([
      [3.0, -1.0, -1.0, -1.0],
      [-1.0, 3.0, -1.0, -1.0],
      [-1.0, -1.0, 3.0, -1.0],
      [-1.0, -1.0, -1.0, 3.0]]) == 48.0
  {
    var R := [
      [3.0, -1.0, -1.0, -1.0],
      [-1.0, 3.0, -1.0, -1.0],
      [-1.0, -1.0, 3.0, -1.0],
      [-1.0, -1.0, -1.0, 3.0]];
    EnergyOf4(R);
    SumSquaresOf4(R[0]);
    SumSquaresOf4(R[1]);
    SumSquaresOf4(R[2]);
    SumSquaresOf4(R[3]);
  }

  lemma CompleteReducedEnergy1()
    ensures Energy(Reduced(CompleteLaplacian, 1)) == 48.0
  {
    CompleteReduction1();
    CompleteReducedMatrixEnergy1();
  }

  lemma CompleteReduction2Row0()
    ensures Reduced(CompleteLaplacian, 2)[0] == [3.0, -1.0, -1.0, -1.0]
  {
  }

  lemma CompleteReduction2Row1()
    ensures Reduced(CompleteLaplacian, 2)[1] == [-1.0, 3.0, -1.0, -1.0]
  {
  }

  lemma CompleteReduction2Row2()
    ensures Reduced(CompleteLaplacian, 2)[2] == [-1.0, -1.0, 3.0, -1.0]
  {
  }

  lemma CompleteReduction2Row3()
    ensures Reduced(CompleteLaplacian, 2)[3] == [-1.0, -1.0, -1.0, 3.0]
  {
  }

  lemma CompleteReduction2()
    ensures Reduced(CompleteLaplacian, 2) == [
      [3.0, -1.0, -1.0, -1.0],
      [-1.0, 3.0, -1.0, -1.0],
      [-1.0, -1.0, 3.0, -1.0],
      [-1.0, -1.0, -1.0, 3.0]]
  {
    var R := Reduced(CompleteLaplacian, 2);
    CompleteReduction2Row0();
    CompleteReduction2Row1();
    CompleteReduction2Row2();
    CompleteReduction2Row3();
  }

  lemma CompleteReducedMatrixEnergy2()
    ensures Energy([
      [3.0, -1.0, -1.0, -1.0],
      [-1.0, 3.0, -1.0, -1.0],
      [-1.0, -1.0, 3.0, -1.0],
      [-1.0, -1.0, -1.0, 3.0]]) == 48.0
  {
    var R := [
      [3.0, -1.0, -1.0, -1.0],
      [-1.0, 3.0, -1.0, -1.0],
      [-1.0, -1.0, 3.0, -1.0],
      [-1.0, -1.0, -1.0, 3.0]];
    EnergyOf4(R);
    SumSquaresOf4(R[0]);
    SumSquaresOf4(R[1]);
    SumSquaresOf4(R[2]);
    SumSquaresOf4(R[3]);
  }

  lemma CompleteReducedEnergy2()
    ensures Energy(Reduced(CompleteLaplacian, 2)) == 48.0
  {
    CompleteReduction2();
    CompleteReducedMatrixEnergy2();
  }

  lemma CompleteReduction3Row0()
    ensures Reduced(CompleteLaplacian, 3)[0] == [3.0, -1.0, -1.0, -1.0]
  {
  }

  lemma CompleteReduction3Row1()
    ensures Reduced(CompleteLaplacian, 3)[1] == [-1.0, 3.0, -1.0, -1.0]
  {
  }

  lemma CompleteReduction3Row2()
    ensures Reduced(CompleteLaplacian, 3)[2] == [-1.0, -1.0, 3.0, -1.0]
  {
  }

  lemma CompleteReduction3Row3()
    ensures Reduced(CompleteLaplacian, 3)[3] == [-1.0, -1.0, -1.0, 3.0]
  {
  }

  lemma CompleteReduction3()
    ensures Reduced(CompleteLaplacian, 3) == [
      [3.0, -1.0, -1.0, -1.0],
      [-1.0, 3.0, -1.0, -1.0],
      [-1.0, -1.0, 3.0, -1.0],
      [-1.0, -1.0, -1.0, 3.0]]
  {
    var R := Reduced(CompleteLaplacian, 3);
    CompleteReduction3Row0();
    CompleteReduction3Row1();
    CompleteReduction3Row2();
    CompleteReduction3Row3();
  }

  lemma CompleteReducedMatrixEnergy3()
    ensures Energy([
      [3.0, -1.0, -1.0, -1.0],
      [-1.0, 3.0, -1.0, -1.0],
      [-1.0, -1.0, 3.0, -1.0],
      [-1.0, -1.0, -1.0, 3.0]]) == 48.0
  {
    var R := [
      [3.0, -1.0, -1.0, -1.0],
      [-1.0, 3.0, -1.0, -1.0],
      [-1.0, -1.0, 3.0, -1.0],
      [-1.0, -1.0, -1.0, 3.0]];
    EnergyOf4(R);
    SumSquaresOf4(R[0]);
    SumSquaresOf4(R[1]);
    SumSquaresOf4(R[2]);
    SumSquaresOf4(R[3]);
  }

  lemma CompleteReducedEnergy3()
    ensures Energy(Reduced(CompleteLaplacian, 3)) == 48.0
  {
    CompleteReduction3();
    CompleteReducedMatrixEnergy3();
  }

  lemma CompleteReduction4Row0()
    ensures Reduced(CompleteLaplacian, 4)[0] == [3.0, -1.0, -1.0, -1.0]
  {
  }

  lemma CompleteReduction4Row1()
    ensures Reduced(CompleteLaplacian, 4)[1] == [-1.0, 3.0, -1.0, -1.0]
  {
  }

  lemma CompleteReduction4Row2()
    ensures Reduced(CompleteLaplacian, 4)[2] == [-1.0, -1.0, 3.0, -1.0]
  {
  }

  lemma CompleteReduction4Row3()
    ensures Reduced(CompleteLaplacian, 4)[3] == [-1.0, -1.0, -1.0, 3.0]
  {
  }

  lemma CompleteReduction4()
    ensures Reduced(CompleteLaplacian, 4) == [
      [3.0, -1.0, -1.0, -1.0],
      [-1.0, 3.0, -1.0, -1.0],
      [-1.0, -1.0, 3.0, -1.0],
      [-1.0, -1.0, -1.0, 3.0]]
  {
    var R := Reduced(CompleteLaplacian, 4);
    CompleteReduction4Row0();
    CompleteReduction4Row1();
    CompleteReduction4Row2();
    CompleteReduction4Row3();
  }

  lemma CompleteReducedMatrixEnergy4()
    ensures Energy([
      [3.0, -1.0, -1.0, -1.0],
      [-1.0, 3.0, -1.0, -1.0],
      [-1.0, -1.0, 3.0, -1.0],
      [-1.0, -1.0, -1.0, 3.0]]) == 48.0
  {
    var R := [
      [3.0, -1.0, -1.0, -1.0],
      [-1.0, 3.0, -1.0, -1.0],
      [-1.0, -1.0, 3.0, -1.0],
      [-1.0, -1.0, -1.0, 3.0]];
    EnergyOf4(R);
    SumSquaresOf4(R[0]);
    SumSquaresOf4(R[1]);
    SumSquaresOf4(R[2]);
    SumSquaresOf4(R[3]);
  }

  lemma CompleteReducedEnergy4()
    ensures Energy(Reduced(CompleteLaplacian, 4)) == 48.0
  {
    CompleteReduction4();
    CompleteReducedMatrixEnergy4();
  }

  lemma CompleteNodeScores()
    ensures NodeScores(CompleteLaplacian, true) == [0.52, 0.52, 0.52, 0.52, 0.52]
  {
    CompleteEnergy();
    CompleteReducedEnergy0();
    CompleteReducedEnergy1();
    CompleteReducedEnergy2();
    CompleteReducedEnergy3();
    CompleteReducedEnergy4();
  }

  /** Distinct keys assigned in order give the dictionary of those keys in
      that order, each with its own value. */
  lemma CompleteDict()
    ensures InsertAll([0, 1, 2, 3, 4], [0.52, 0.52, 0.52, 0.52, 0.52]) == Dict([0, 1, 2, 3, 4], map[0 := 0.52, 1 := 0.52, 2 := 0.52, 3 := 0.52, 4 := 0.52])
  {
    InsertAllIsDict([0, 1, 2, 3, 4], [0.52, 0.52, 0.52, 0.52, 0.52], map[0 := 0.52, 1 := 0.52, 2 := 0.52, 3 := 0.52, 4 := 0.52]);
  }

  /** K5: every node scores 0.52. */
  lemma CompleteScores()
    ensures LaplacianCentralitySpec([0, 1, 2, 3, 4], Laplacian(CompleteWeights), true) ==
      Success(Dict([0, 1, 2, 3, 4], map[0 := 0.52, 1 := 0.52, 2 := 0.52, 3 := 0.52, 4 := 0.52]))
  {
    CompleteLaplacianIsDegreeMinusWeights();
    CompleteEnergy();
    CompleteNodeScores();
    CompleteDict();
  }

  // ---------------------------------------------------------------------
  // The weighted graph (0,1,4), (0,2,2), (2,1,1), (1,3,2), (1,4,2), (4,5,1).

  const WeightedWeights: Matrix := [
    [0.0, 4.0, 2.0, 0.0, 0.0, 0.0],
    [4.0, 0.0, 1.0, 2.0, 2.0, 0.0],
    [2.0, 1.0, 0.0, 0.0, 0.0, 0.0],
    [0.0, 2.0, 0.0, 0.0, 0.0, 0.0],
    [0.0, 2.0, 0.0, 0.0, 0.0, 1.0],
    [0.0, 0.0, 0.0, 0.0, 1.0, 0.0]]

  const WeightedLaplacian: Matrix := [
    [6.0, -4.0, -2.0, 0.0, 0.0, 0.0],
    [-4.0, 9.0, -1.0, -2.0, -2.0, 0.0],
    [-2.0, -1.0, 3.0, 0.0, 0.0, 0.0],
    [0.0, -2.0, 0.0, 2.0, 0.0, 0.0],
    [0.0, -2.0, 0.0, 0.0, 3.0, -1.0],
    [0.0, 0.0, 0.0, 0.0, -1.0, 1.0]]

  lemma WeightedLaplacianIsDegreeMinusWeights()
    ensures Laplacian(WeightedWeights) == WeightedLaplacian
  {
    var W := WeightedWeights;
    SumOf6(W[0]);
    SumOf6(W[1]);
    SumOf6(W[2]);
    SumOf6(W[3]);
    SumOf6(W[4]);
    SumOf6(W[5]);
    SameEntries(Laplacian(W), WeightedLaplacian);
  }

  lemma WeightedEnergy()
    ensures Energy(WeightedLaplacian) == 200.0
  {
    var L := WeightedLaplacian;
    EnergyOf6(L);
    SumSquaresOf6(L[0]);
    SumSquaresOf6(L[1]);
    SumSquaresOf6(L[2]);
    SumSquaresOf6(L[3]);
    SumSquaresOf6(L[4]);
    SumSquaresOf6(L[5]);
  }

  lemma WeightedReduction0Row0()
    ensures Reduced(WeightedLaplacian, 0)[0] == [5.0, -1.0, -2.0, -2.0, 0.0]
  {
  }

  lemma WeightedReduction0Row1()
    ensures Reduced(WeightedLaplacian, 0)[1] == [-1.0, 1.0, 0.0, 0.0, 0.0]
  {
  }

  lemma WeightedReduction0Row2()
    ensures Reduced(WeightedLaplacian, 0)[2] == [-2.0, 0.0, 2.0, 0.0, 0.0]
  {
  }

  lemma WeightedReduction0Row3()
    ensures Reduced(WeightedLaplacian, 0)[3] == [-2.0, 0.0, 0.0, 3.0, -1.0]
  {
  }

  lemma WeightedReduction0Row4()
    ensures Reduced(WeightedLaplacian, 0)[4] == [0.0, 0.0, 0.0, -1.0, 1.0]
  {
  }

  lemma WeightedReduction0()
    ensures Reduced(WeightedLaplacian, 0) == [
      [5.0, -1.0, -2.0, -2.0, 0.0],
      [-1.0, 1.0, 0.0, 0.0, 0.0],
      [-2.0, 0.0, 2.0, 0.0, 0.0],
      [-2.0, 0.0, 0.0, 3.0, -1.0],
      [0.0, 0.0, 0.0, -1.0, 1.0]]
  {
    var R := Reduced(WeightedLaplacian, 0);
    WeightedReduction0Row0();
    WeightedReduction0Row1();
    WeightedReduction0Row2();
    WeightedReduction0Row3();
    WeightedReduction0Row4();
  }

  lemma WeightedReducedMatrixEnergy0()
    ensures Energy([
      [5.0, -1.0, -2.0, -2.0, 0.0],
      [-1.0, 1.0, 0.0, 0.0, 0.0],
      [-2.0, 0.0, 2.0, 0.0, 0.0],
      [-2.0, 0.0, 0.0, 3.0, -1.0],
      [0.0, 0.0, 0.0, -1.0, 1.0]]) == 60.0
  {
    var R := [
      [5.0, -1.0, -2.0, -2.0, 0.0],
      [-1.0, 1.0, 0.0, 0.0, 0.0],
      [-2.0, 0.0, 2.0, 0.0, 0.0],
      [-2.0, 0.0, 0.0, 3.0, -1.0],
      [0.0, 0.0, 0.0, -1.0, 1.0]];
    EnergyOf5(R);
    SumSquaresOf5(R[0]);
    SumSquaresOf5(R[1]);
    SumSquaresOf5(R[2]);
    SumSquaresOf5(R[3]);
    SumSquaresOf5(R[4]);
  }

  lemma WeightedReducedEnergy0()
    ensures Energy(Reduced(WeightedLaplacian, 0)) == 60.0
  {
    WeightedReduction0();
    WeightedReducedMatrixEnergy0();
  }

  lemma WeightedReduction1Row0()
    ensures Reduced(WeightedLaplacian, 1)[0] == [2.0, -2.0, 0.0, 0.0, 0.0]
  {
  }

  lemma WeightedReduction1Row1()
    ensures Reduced(WeightedLaplacian, 1)[1] == [-2.0, 2.0, 0.0, 0.0, 0.0]
  {
  }

  lemma WeightedReduction1Row2()
    ensures Reduced(WeightedLaplacian, 1)[2] == [0.0, 0.0, 0.0, 0.0, 0.0]
  {
  }

  lemma WeightedReduction1Row3()
    ensures Reduced(WeightedLaplacian, 1)[3] == [0.0, 0.0, 0.0, 1.0, -1.0]
  {
  }

  lemma WeightedReduction1Row4()
    ensures Reduced(WeightedLaplacian, 1)[4] == [0.0, 0.0, 0.0, -1.0, 1.0]
  {
  }

  lemma WeightedReduction1()
    ensures Reduced(WeightedLaplacian, 1) == [
      [2.0, -2.0, 0.0, 0.0, 0.0],
      [-2.0, 2.0, 0.0, 0.0, 0.0],
      [0.0, 0.0, 0.0, 0.0, 0.0],
      [0.0, 0.0, 0.0, 1.0, -1.0],
      [0.0, 0.0, 0.0, -1.0, 1.0]]
  {
    var R := Reduced(WeightedLaplacian, 1);
    WeightedReduction1Row0();
    WeightedReduction1Row1();
    WeightedReduction1Row2();
    WeightedReduction1Row3();
    WeightedReduction1Row4();
  }

  lemma WeightedReducedMatrixEnergy1()
    ensures Energy([
      [2.0, -2.0, 0.0, 0.0, 0.0],
      [-2.0, 2.0, 0.0, 0.0, 0.0],
      [0.0, 0.0, 0.0, 0.0, 0.0],
      [0.0, 0.0, 0.0, 1.0, -1.0],
      [0.0, 0.0, 0.0, -1.0, 1.0]]) == 20.0
  {
    var R := [
      [2.0, -2.0, 0.0, 0.0, 0.0],
      [-2.0, 2.0, 0.0, 0.0, 0.0],
      [0.0, 0.0, 0.0, 0.0, 0.0],
      [0.0, 0.0, 0.0, 1.0, -1.0],
      [0.0, 0.0, 0.0, -1.0, 1.0]];
    EnergyOf5(R);
    SumSquaresOf5(R[0]);
    SumSquaresOf5(R[1]);
    SumSquaresOf5(R[2]);
    SumSquaresOf5(R[3]);
    SumSquaresOf5(R[4]);
  }

  lemma WeightedReducedEnergy1()
    ensures Energy(Reduced(WeightedLaplacian, 1)) == 20.0
  {
    WeightedReduction1();
    WeightedReducedMatrixEnergy1();
  }

  lemma WeightedReduction2Row0()
    ensures Reduced(WeightedLaplacian, 2)[0] == [4.0, -4.0, 0.0, 0.0, 0.0]
  {
  }

  lemma WeightedReduction2Row1()
    ensures Reduced(WeightedLaplacian, 2)[1] == [-4.0, 8.0, -2.0, -2.0, 0.0]
  {
  }

  lemma WeightedReduction2Row2()
    ensures Reduced(WeightedLaplacian, 2)[2] == [0.0, -2.0, 2.0, 0.0, 0.0]
  {
  }

  lemma WeightedReduction2Row3()
    ensures Reduced(WeightedLaplacian, 2)[3] == [0.0, -2.0, 0.0, 3.0, -1.0]
  {
  }

  lemma WeightedReduction2Row4()
    ensures Reduced(WeightedLaplacian, 2)[4] == [0.0, 0.0, 0.0, -1.0, 1.0]
  {
  }

  lemma WeightedReduction2()
    ensures Reduced(WeightedLaplacian, 2) == [
      [4.0, -4.0, 0.0, 0.0, 0.0],
      [-4.0, 8.0, -2.0, -2.0, 0.0],
      [0.0, -2.0, 2.0, 0.0, 0.0],
      [0.0, -2.0, 0.0, 3.0, -1.0],
      [0.0, 0.0, 0.0, -1.0, 1.0]]
  {
    var R := Reduced(WeightedLaplacian, 2);
    WeightedReduction2Row0();
    WeightedReduction2Row1();
    WeightedReduction2Row2();
    WeightedReduction2Row3();
    WeightedReduction2Row4();
  }

  lemma WeightedReducedMatrixEnergy2()
    ensures Energy([
      [4.0, -4.0, 0.0, 0.0, 0.0],
      [-4.0, 8.0, -2.0, -2.0, 0.0],
      [0.0, -2.0, 2.0, 0.0, 0.0],
      [0.0, -2.0, 0.0, 3.0, -1.0],
      [0.0, 0.0, 0.0, -1.0, 1.0]]) == 144.0
  {
    var R := [
      [4.0, -4.0, 0.0, 0.0, 0.0],
      [-4.0, 8.0, -2.0, -2.0, 0.0],
      [0.0, -2.0, 2.0, 0.0, 0.0],
      [0.0, -2.0, 0.0, 3.0, -1.0],
      [0.0, 0.0, 0.0, -1.0, 1.0]];
    EnergyOf5(R);
    SumSquaresOf5(R[0]);
    SumSquaresOf5(R[1]);
    SumSquaresOf5(R[2]);
    SumSquaresOf5(R[3]);
    SumSquaresOf5(R[4]);
  }

  lemma WeightedReducedEnergy2()
    ensures Energy(Reduced(WeightedLaplacian, 2)) == 144.0
  {
    WeightedReduction2();
    WeightedReducedMatrixEnergy2();
  }

  lemma WeightedReduction3Row0()
    ensures Reduced(WeightedLaplacian, 3)[0] == [6.0, -4.0, -2.0, 0.0, 0.0]
  {
  }

  lemma WeightedReduction3Row1()
    ensures Reduced(WeightedLaplacian, 3)[1] == [-4.0, 7.0, -1.0, -2.0, 0.0]
  {
  }

  lemma WeightedReduction3Row2()
    ensures Reduced(WeightedLaplacian, 3)[2] == [-2.0, -1.0, 3.0, 0.0, 0.0]
  {
  }

  lemma WeightedReduction3Row3()
    ensures Reduced(WeightedLaplacian, 3)[3] == [0.0, -2.0, 0.0, 3.0, -1.0]
  {
  }

  lemma WeightedReduction3Row4()
    ensures Reduced(WeightedLaplacian, 3)[4] == [0.0, 0.0, 0.0, -1.0, 1.0]
  {
  }

  lemma WeightedReduction3()
    ensures Reduced(WeightedLaplacian, 3) == [
      [6.0, -4.0, -2.0, 0.0, 0.0],
      [-4.0, 7.0, -1.0, -2.0, 0.0],
      [-2.0, -1.0, 3.0, 0.0, 0.0],
      [0.0, -2.0, 0.0, 3.0, -1.0],
      [0.0, 0.0, 0.0, -1.0, 1.0]]
  {
    var R := Reduced(WeightedLaplacian, 3);
    WeightedReduction3Row0();
    WeightedReduction3Row1();
    WeightedReduction3Row2();
    WeightedReduction3Row3();
    WeightedReduction3Row4();
  }

  lemma WeightedReducedMatrixEnergy3()
    ensures Energy([
      [6.0, -4.0, -2.0, 0.0, 0.0],
      [-4.0, 7.0, -1.0, -2.0, 0.0],
      [-2.0, -1.0, 3.0, 0.0, 0.0],
      [0.0, -2.0, 0.0, 3.0, -1.0],
      [0.0, 0.0, 0.0, -1.0, 1.0]]) == 156.0
  {
    var R := [
      [6.0, -4.0, -2.0, 0.0, 0.0],
      [-4.0, 7.0, -1.0, -2.0, 0.0],
      [-2.0, -1.0, 3.0, 0.0, 0.0],
      [0.0, -2.0, 0.0, 3.0, -1.0],
      [0.0, 0.0, 0.0, -1.0, 1.0]];
    EnergyOf5(R);
    SumSquaresOf5(R[0]);
    SumSquaresOf5(R[1]);
    SumSquaresOf5(R[2]);
    SumSquaresOf5(R[3]);
    SumSquaresOf5(R[4]);
  }

  lemma WeightedReducedEnergy3()
    ensures Energy(Reduced(WeightedLaplacian, 3)) == 156.0
  {
    WeightedReduction3();
    WeightedReducedMatrixEnergy3();
  }

  lemma WeightedReduction4Row0()
    ensures Reduced(WeightedLaplacian, 4)[0] == [6.0, -4.0, -2.0, 0.0, 0.0]
  {
  }

  lemma WeightedReduction4Row1()
    ensures Reduced(WeightedLaplacian, 4)[1] == [-4.0, 7.0, -1.0, -2.0, 0.0]
  {
  }

  lemma WeightedReduction4Row2()
    ensures Reduced(WeightedLaplacian, 4)[2] == [-2.0, -1.0, 3.0, 0.0, 0.0]
  {
  }

  lemma WeightedReduction4Row3()
    ensures Reduced(WeightedLaplacian, 4)[3] == [0.0, -2.0, 0.0, 2.0, 0.0]
  {
  }

  lemma WeightedReduction4Row4()
    ensures Reduced(WeightedLaplacian, 4)[4] == [0.0, 0.0, 0.0, 0.0, 0.0]
  {
  }

  lemma WeightedReduction4()
    ensures Reduced(WeightedLaplacian, 4) == [
      [6.0, -4.0, -2.0, 0.0, 0.0],
      [-4.0, 7.0, -1.0, -2.0, 0.0],
      [-2.0, -1.0, 3.0, 0.0, 0.0],
      [0.0, -2.0, 0.0, 2.0, 0.0],
      [0.0, 0.0, 0.0, 0.0, 0.0]]
  {
    var R := Reduced(WeightedLaplacian, 4);
    WeightedReduction4Row0();
    WeightedReduction4Row1();
    WeightedReduction4Row2();
    WeightedReduction4Row3();
    WeightedReduction4Row4();
  }

  lemma WeightedReducedMatrixEnergy4()
    ensures Energy([
      [6.0, -4.0, -2.0, 0.0, 0.0],
      [-4.0, 7.0, -1.0, -2.0, 0.0],
      [-2.0, -1.0, 3.0, 0.0, 0.0],
      [0.0, -2.0, 0.0, 2.0, 0.0],
      [0.0, 0.0, 0.0, 0.0, 0.0]]) == 148.0
  {
    var R := [
      [6.0, -4.0, -2.0, 0.0, 0.0],
      [-4.0, 7.0, -1.0, -2.0, 0.0],
      [-2.0, -1.0, 3.0, 0.0, 0.0],
      [0.0, -2.0, 0.0, 2.0, 0.0],
      [0.0, 0.0, 0.0, 0.0, 0.0]];
    EnergyOf5(R);
    SumSquaresOf5(R[0]);
    SumSquaresOf5(R[1]);
    SumSquaresOf5(R[2]);
    SumSquaresOf5(R[3]);
    SumSquaresOf5(R[4]);
  }

  lemma WeightedReducedEnergy4()
    ensures Energy(Reduced(WeightedLaplacian, 4)) == 148.0
  {
    WeightedReduction4();
    WeightedReducedMatrixEnergy4();
  }

  lemma WeightedReduction5Row0()
    ensures Reduced(WeightedLaplacian, 5)[0] == [6.0, -4.0, -2.0, 0.0, 0.0]
  {
  }

  lemma WeightedReduction5Row1()
    ensures Reduced(WeightedLaplacian, 5)[1] == [-4.0, 9.0, -1.0, -2.0, -2.0]
  {
  }

  lemma WeightedReduction5Row2()
    ensures Reduced(WeightedLaplacian, 5)[2] == [-2.0, -1.0, 3.0, 0.0, 0.0]
  {
  }

  lemma WeightedReduction5Row3()
    ensures Reduced(WeightedLaplacian, 5)[3] == [0.0, -2.0, 0.0, 2.0, 0.0]
  {
  }

  lemma WeightedReduction5Row4()
    ensures Reduced(WeightedLaplacian, 5)[4] == [0.0, -2.0, 0.0, 0.0, 2.0]
  {
  }

  lemma WeightedReduction5()
    ensures Reduced(WeightedLaplacian, 5) == [
      [6.0, -4.0, -2.0, 0.0, 0.0],
      [-4.0, 9.0, -1.0, -2.0, -2.0],
      [-2.0, -1.0, 3.0, 0.0, 0.0],
      [0.0, -2.0, 0.0, 2.0, 0.0],
      [0.0, -2.0, 0.0, 0.0, 2.0]]
  {
    var R := Reduced(WeightedLaplacian, 5);
    WeightedReduction5Row0();
    WeightedReduction5Row1();
    WeightedReduction5Row2();
    WeightedReduction5Row3();
    WeightedReduction5Row4();
  }

  lemma WeightedReducedMatrixEnergy5()
    ensures Energy([
      [6.0, -4.0, -2.0, 0.0, 0.0],
      [-4.0, 9.0, -1.0, -2.0, -2.0],
      [-2.0, -1.0, 3.0, 0.0, 0.0],
      [0.0, -2.0, 0.0, 2.0, 0.0],
      [0.0, -2.0, 0.0, 0.0, 2.0]]) == 192.0
  {
    var R := [
      [6.0, -4.0, -2.0, 0.0, 0.0],
      [-4.0, 9.0, -1.0, -2.0, -2.0],
      [-2.0, -1.0, 3.0, 0.0, 0.0],
      [0.0, -2.0, 0.0, 2.0, 0.0],
      [0.0, -2.0, 0.0, 0.0, 2.0]];
    EnergyOf5(R);
    SumSquaresOf5(R[0]);
    SumSquaresOf5(R[1]);
    SumSquaresOf5(R[2]);
    SumSquaresOf5(R[3]);
    SumSquaresOf5(R[4]);
  }

  lemma WeightedReducedEnergy5()
    ensures Energy(Reduced(WeightedLaplacian, 5)) == 192.0
  {
    WeightedReduction5();
    WeightedReducedMatrixEnergy5();
  }

  lemma WeightedNodeScores()
    ensures NodeScores(WeightedLaplacian, true) == [0.70, 0.90, 0.28, 0.22, 0.26, 0.04]
  {
    WeightedEnergy();
    WeightedReducedEnergy0();
    WeightedReducedEnergy1();
    WeightedReducedEnergy2();
    WeightedReducedEnergy3();
    WeightedReducedEnergy4();
    WeightedReducedEnergy5();
  }

  /** Distinct keys assigned in order give the dictionary of those keys in
      that order, each with its own value. */
  lemma WeightedDict()
    ensures InsertAll([0, 1, 2, 3, 4, 5], [0.70, 0.90, 0.28, 0.22, 0.26, 0.04]) == Dict([0, 1, 2, 3, 4, 5], map[0 := 0.70, 1 := 0.90, 2 := 0.28, 3 := 0.22, 4 := 0.26, 5 := 0.04])
  {
    InsertAllIsDict([0, 1, 2, 3, 4, 5], [0.70, 0.90, 0.28, 0.22, 0.26, 0.04], map[0 := 0.70, 1 := 0.90, 2 := 0.28, 3 := 0.22, 4 := 0.26, 5 := 0.04]);
  }

  /** The weighted example: {0: 0.70, 1: 0.90, 2: 0.28, 3: 0.22, 4: 0.26, 5: 0.04}. */
  lemma WeightedScores()
    ensures LaplacianCentralitySpec([0, 1, 2, 3, 4, 5], Laplacian(WeightedWeights), true) ==
      Success(Dict([0, 1, 2, 3, 4, 5], map[0 := 0.70, 1 := 0.90, 2 := 0.28, 3 := 0.22, 4 := 0.26, 5 := 0.04]))
  {
    WeightedLaplacianIsDegreeMinusWeights();
    WeightedEnergy();
    WeightedNodeScores();
    WeightedDict();
  }

}
