/** Scores for a subset of the nodes (the nbunch argument). The loop pairs the
    k-th node yielded for the subset with row k of the Laplacian, which is the
    node's own row only when the subset is all nodes in the graph's order.
    Both that behaviour and the evidently intended one (each node scored from
    its own row) are modelled, with the input that tells them apart. */
module Subsets {
  import opened Matrices
  import opened Dicts
  import opened Centrality
  import opened PinnedValues

  /** The row of node v in a Laplacian whose rows follow the order `nodes`. */
  function IndexOf<N(==)>(nodes: seq<N>, v: N): (i: nat)
    requires v in nodes
    ensures i < |nodes| && nodes[i] == v
  {
    if nodes[0] == v then 0 else 1 + IndexOf(nodes[1..], v)
  }

  /** Every node of the subset is a node of the graph, listed once. */
  predicate IsSubset<N(==)>(nodes: seq<N>, bunch: seq<N>) {
    Distinct(bunch) && |bunch| <= |nodes| && forall t :: 0 <= t < |bunch| ==> bunch[t] in nodes
  }

  /** As written: the k-th node of the subset is scored with row k deleted,
      whichever row belongs to it. */
  function SubsetScoresAsWritten<N(==)>(nodes: seq<N>, L: Matrix, normalized: bool, bunch: seq<N>): (d: Dict<N, real>)
    requires IsSquare(L, |nodes|) && IsSubset(nodes, bunch)
    requires normalized && |nodes| > 0 ==> Energy(L) > 0.0
    ensures d.Valid() && d.keys == bunch
    ensures forall k :: 0 <= k < |bunch| ==>
      bunch[k] in d.entries && d.entries[bunch[k]] == NodeScore(L, k, normalized)
  {
    var scores := NodeScores(L, normalized)[..|bunch|];
    InsertAllContents(bunch, scores);
    InsertAll(bunch, scores)
  }

  /** Intended: each node of the subset is scored with its own row deleted. */
  function SubsetScores<N(==)>(nodes: seq<N>, L: Matrix, normalized: bool, bunch: seq<N>): (d: Dict<N, real>)
    requires IsSquare(L, |nodes|) && IsSubset(nodes, bunch)
    requires normalized && |nodes| > 0 ==> Energy(L) > 0.0
    ensures d.Valid() && d.keys == bunch
    ensures forall k :: 0 <= k < |bunch| ==>
      bunch[k] in d.entries && d.entries[bunch[k]] == NodeScore(L, IndexOf(nodes, bunch[k]), normalized)
  {
    var scores := seq(|bunch|, k requires 0 <= k < |bunch| => NodeScores(L, normalized)[IndexOf(nodes, bunch[k])]);
    InsertAllContents(bunch, scores);
    InsertAll(bunch, scores)
  }

  /** With the intended indexing, restricting to a subset does not change
      node t's score: it gets the value the whole-graph computation gives it,
      and the keys follow the subset's order. */
  lemma SubsetScoreAgreesWithWholeGraph<N>(nodes: seq<N>, L: Matrix, normalized: bool, bunch: seq<N>, t: nat)
    requires IsSquare(L, |nodes|) && |nodes| >= 2 && Distinct(nodes) && IsSubset(nodes, bunch)
    requires normalized ==> Energy(L) > 0.0
    requires t < |bunch|
    ensures SubsetScores(nodes, L, normalized, bunch).keys == bunch
    ensures bunch[t] in SubsetScores(nodes, L, normalized, bunch).entries
    ensures bunch[t] in LaplacianCentralitySpec(nodes, L, normalized).value.entries
    ensures SubsetScores(nodes, L, normalized, bunch).entries[bunch[t]] ==
      LaplacianCentralitySpec(nodes, L, normalized).value.entries[bunch[t]]
  {
    var scores := seq(|bunch|, k requires 0 <= k < |bunch| => NodeScores(L, normalized)[IndexOf(nodes, bunch[k])]);
    InsertAllContents(bunch, scores);
    LaplacianCentralityContents(nodes, L, normalized);
    var i := IndexOf(nodes, bunch[t]);
    assert nodes[i] == bunch[t];
    var whole := LaplacianCentralitySpec(nodes, L, normalized).value;
    assert whole.entries[nodes[i]] == NodeScore(L, i, normalized);
  }

  /** When the subset is all nodes in the graph's order, the code as written
      gives exactly the whole-graph result, which is the nbunch = None case. */
  lemma AsWrittenAgreesOnAllNodes<N>(nodes: seq<N>, L: Matrix, normalized: bool)
    requires IsSquare(L, |nodes|) && |nodes| >= 2 && Distinct(nodes)
    requires normalized ==> Energy(L) > 0.0
    ensures IsSubset(nodes, nodes)
    ensures LaplacianCentralitySpec(nodes, L, normalized) ==
      Success(SubsetScoresAsWritten(nodes, L, normalized, nodes))
  {
    assert NodeScores(L, normalized)[..|nodes|] == NodeScores(L, normalized);
  }

  /** The path 0-1-2 with nbunch = [1]: the code as written deletes row 0 and
      reports 0.6 for node 1, while node 1's own score is 1.0. */
  lemma PathSubsetCounterexample()
    ensures IsSubset([0, 1, 2], [1])
    ensures SubsetScoresAsWritten([0, 1, 2], PathLaplacian, true, [1]) == Dict([1], map[1 := 0.6])
    ensures SubsetScores([0, 1, 2], PathLaplacian, true, [1]) == Dict([1], map[1 := 1.0])
  {
    PathSubsetAsWritten();
    PathSubsetIntended();
  }

  lemma PathSubsetAsWritten()
    ensures IsSubset([0, 1, 2], [1])
    ensures SubsetScoresAsWritten([0, 1, 2], PathLaplacian, true, [1]) == Dict([1], map[1 := 0.6])
  {
    PathEnergy();
    PathNodeScores();
    var asWritten := SubsetScoresAsWritten([0, 1, 2], PathLaplacian, true, [1]);
    SameKeysSameValues(asWritten, [1], [0.6], map[1 := 0.6]);
  }

  lemma PathSubsetIntended()
    ensures IsSubset([0, 1, 2], [1])
    ensures SubsetScores([0, 1, 2], PathLaplacian, true, [1]) == Dict([1], map[1 := 1.0])
  {
    PathEnergy();
    PathNodeScores();
    assert IndexOf([0, 1, 2], 1) == 1;
    var intended := SubsetScores([0, 1, 2], PathLaplacian, true, [1]);
    SameKeysSameValues(intended, [1], [1.0], map[1 := 1.0]);
  }
}
