/** laplacian_centrality for an undirected graph and nbunch = None: the
    null-graph check, the energy of the full Laplacian (only when normalized),
    and one score per node from the energy of its reduced matrix, collected
    in node order. */
module Centrality {
  import opened Matrices
  import opened Reduction
  import opened Laplacians
  import opened Dicts

  /** NetworkXPointlessConcept, raised for the null graph. */
  datatype CentralityError = NullGraph

  datatype Result<T> = Success(value: T) | Failure(error: CentralityError)

  /** The score of a node from the full energy and the energy after deleting
      it: the relative drop 1 - E_i / E_full when normalized, and the
      deflated energy E_i itself (not the drop) otherwise. */
  function Score(normalized: bool, fullEnergy: real, nodeEnergy: real): (c: real)
    requires normalized ==> fullEnergy != 0.0
    ensures normalized ==> c * fullEnergy == fullEnergy - nodeEnergy
    ensures !normalized ==> c == nodeEnergy
  {
    if normalized then 1.0 - nodeEnergy / fullEnergy else nodeEnergy
  }

  /** A normalized score lies in [0, 1] when the deflated energy lies
      between 0 and the full energy; it is 1 exactly when nothing is left
      and 0 exactly when deleting the node removes no energy. */
  lemma NormalizedScoreBounds(fullEnergy: real, nodeEnergy: real)
    requires 0.0 <= nodeEnergy <= fullEnergy && fullEnergy > 0.0
    ensures 0.0 <= Score(true, fullEnergy, nodeEnergy) <= 1.0
    ensures Score(true, fullEnergy, nodeEnergy) == 1.0 <==> nodeEnergy == 0.0
    ensures Score(true, fullEnergy, nodeEnergy) == 0.0 <==> nodeEnergy == fullEnergy
  {
    var q := nodeEnergy / fullEnergy;
    assert q * fullEnergy == nodeEnergy;
    assert 0.0 <= q <= 1.0;
  }

  /** A node whose deletion leaves less energy gets a higher normalized score. */
  lemma NormalizedScoreAntitone(fullEnergy: real, e1: real, e2: real)
    requires fullEnergy > 0.0 && e1 < e2
    ensures Score(true, fullEnergy, e1) > Score(true, fullEnergy, e2)
  {
    assert e1 / fullEnergy < e2 / fullEnergy;
  }

  /** The energy the score is relative to: that of L when normalized, and 1
      (unused) otherwise. */
  function BaselineEnergy(L: Matrix, normalized: bool): (b: real)
    ensures b >= 0.0
    ensures normalized ==> b == Energy(L)
    ensures !normalized ==> b == 1.0
  {
    if normalized then Energy(L) else 1.0
  }

  /** The score of the node at index i of the Laplacian L. */
  function NodeScore(L: Matrix, i: nat, normalized: bool): (c: real)
    requires IsSquare(L, |L|) && i < |L|
    requires normalized ==> Energy(L) > 0.0
    ensures normalized ==> c == 1.0 - Energy(Reduced(L, i)) / Energy(L)
    ensures !normalized ==> c == Energy(Reduced(L, i)) && c >= 0.0
  {
    Score(normalized, BaselineEnergy(L, normalized), Energy(Reduced(L, i)))
  }

  /** The score of every row of L, in row order. */
  function NodeScores(L: Matrix, normalized: bool): (s: seq<real>)
    requires IsSquare(L, |L|)
    requires normalized && |L| > 0 ==> Energy(L) > 0.0
    ensures |s| == |L|
    ensures forall i :: 0 <= i < |L| ==> s[i] == NodeScore(L, i, normalized)
  {
    seq(|L|, i requires 0 <= i < |L| => NodeScore(L, i, normalized))
  }

  /** The result of laplacian_centrality for the graph whose nodes, in the
      graph's order, are `nodes` and whose Laplacian is L (row i belongs to
      nodes[i]). */
  function LaplacianCentralitySpec<N(==)>(nodes: seq<N>, L: Matrix, normalized: bool): (r: Result<Dict<N, real>>)
    requires IsSquare(L, |nodes|) && |nodes| != 1
    requires normalized && |nodes| > 0 ==> Energy(L) > 0.0
    ensures r.Failure? <==> |nodes| == 0
  {
    if |nodes| == 0 then Failure(NullGraph)
    else Success(InsertAll(nodes, NodeScores(L, normalized)))
  }

  predicate Distinct<N(==)>(nodes: seq<N>) {
    forall a, b :: 0 <= a < b < |nodes| ==> nodes[a] != nodes[b]
  }

  /** A non-null graph gets one key per node, in the graph's node order, each
      mapped to the score of its own row of L; the null graph gets the error
      and no dictionary. */
  lemma LaplacianCentralityContents<N>(nodes: seq<N>, L: Matrix, normalized: bool)
    requires IsSquare(L, |nodes|) && |nodes| != 1 && Distinct(nodes)
    requires normalized && |nodes| > 0 ==> Energy(L) > 0.0
    ensures |nodes| == 0 ==> LaplacianCentralitySpec(nodes, L, normalized) == Failure(NullGraph)
    ensures |nodes| > 0 ==>
      var r := LaplacianCentralitySpec(nodes, L, normalized);
      r.Success? && r.value.Valid() && r.value.keys == nodes &&
      forall t :: 0 <= t < |nodes| ==> r.value.entries[nodes[t]] == NodeScore(L, t, normalized)
  {
    if |nodes| > 0 {
      InsertAllContents(nodes, NodeScores(L, normalized));
    }
  }

  /** For the Laplacian of an undirected graph with non-negative weights,
      every normalized score lies in [0, 1], and it is 1 exactly when the
      graph with the node deleted has no energy left. */
  lemma NormalizedScoreInUnitInterval(W: Matrix, i: nat)
    requires IsWeights(W) && i < |W| && Energy(Laplacian(W)) > 0.0
    ensures 0.0 <= NodeScore(Laplacian(W), i, true) <= 1.0
    ensures NodeScore(Laplacian(W), i, true) == 1.0 <==> Energy(Laplacian(DeleteNode(W, i))) == 0.0
  {
    LaplacianEnergyDecreases(W, i);
    ReducedIsLaplacianOfDeletion(W, i);
    NormalizedScoreBounds(Energy(Laplacian(W)), Energy(Reduced(Laplacian(W), i)));
  }

  /** laplacian_centrality(G, normalized) with nbunch = None, for a graph
      whose nodes, in the graph's order, are `nodes` and whose Laplacian
      matrix is L. The loop visits the nodes in order; the i-th node's score
      comes from the reduction of L at row i. L is read and never written. */
  method LaplacianCentrality<N(==)>(nodes: seq<N>, L: array2<real>, normalized: bool)
    returns (r: Result<Dict<N, real>>)
    requires L.Length0 == L.Length1 == |nodes| && |nodes| != 1
    requires normalized && |nodes| > 0 ==> Energy(Elements(L)) > 0.0
    ensures r == LaplacianCentralitySpec(nodes, Elements(L), normalized)
  {
    if |nodes| == 0 {
      return Failure(NullGraph);
    }
    var sumOfFull := if normalized then Energy(Elements(L)) else 1.0;
    var scores := CollectScores(nodes, L, normalized, sumOfFull);
    r := Success(scores);
  }

  /** The loop over the nodes: the i-th node is assigned the score of row i,
      so the dictionary lists the nodes in order, each with its own score. */
  method CollectScores<N(==)>(nodes: seq<N>, L: array2<real>, normalized: bool, sumOfFull: real)
    returns (scores: Dict<N, real>)
    requires L.Length0 == L.Length1 == |nodes|
    requires normalized && |nodes| > 0 ==> Energy(Elements(L)) > 0.0
    requires sumOfFull == BaselineEnergy(Elements(L), normalized)
    ensures scores == InsertAll(nodes, NodeScores(Elements(L), normalized))
  {
    ghost var M := Elements(L);
    ghost var expected := NodeScores(M, normalized);
    scores := Empty();
    for i := 0 to |nodes|
      invariant Elements(L) == M
      invariant scores == InsertAll(nodes[..i], expected[..i])
    {
      var score := ScoreNode(L, i, normalized, sumOfFull);
      ScoresStep(nodes, expected, scores, i, score);
      scores := scores.Insert(nodes[i], score);
    }
    assert nodes[..|nodes|] == nodes && expected[..|nodes|] == expected;
  }

  /** Assigning the i-th node its score extends the dictionary of the first i
      nodes to that of the first i + 1. */
  lemma ScoresStep<N>(nodes: seq<N>, expected: seq<real>, scores: Dict<N, real>, i: nat, score: real)
    requires |nodes| == |expected| && i < |nodes|
    requires scores == InsertAll(nodes[..i], expected[..i]) && score == expected[i]
    ensures scores.Insert(nodes[i], score) == InsertAll(nodes[..i + 1], expected[..i + 1])
  {
    InsertAllStep(nodes, expected, i + 1);
  }

  /** One iteration of the loop: reduce L at row i, take the energy of the
      reduced matrix, and turn it into the score. */
  method ScoreNode(L: array2<real>, i: nat, normalized: bool, sumOfFull: real) returns (score: real)
    requires L.Length0 == L.Length1 && i < L.Length0
    requires normalized ==> Energy(Elements(L)) > 0.0
    requires sumOfFull == BaselineEnergy(Elements(L), normalized)
    ensures score == NodeScore(Elements(L), i, normalized)
    ensures score == NodeScores(Elements(L), normalized)[i]
  {
    var reduced := Reduce(L, i);
    var sumOfEigenValues2 := Energy(Elements(reduced));
    score := if normalized then 1.0 - sumOfEigenValues2 / sumOfFull else sumOfEigenValues2;
  }
}
