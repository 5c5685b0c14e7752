/** The rotation symmetry of the game on the cube: what self-play and training rely on when they rotate positions. */
module CubeSymmetry {
  import opened Topology
  import opened GoRules
  import opened GoInvariants
  import opened Scoring
  import opened Symmetry
  import CubeBuild
  import CubeMatrices
  import CubeRotations
  import CubeSurface
  import CubeTopology

  lemma InitialRotates(adj: Adjacency, pi: seq<nat>)
    requires |adj| > 0 && IsPermutation(pi) && |pi| == |adj|
    ensures Fits(pi, Initial(adj)) && RotateState(pi, Initial(adj)) == Initial(adj)
  {
    var b := EmptyBoard(|adj|);
    PermutedUnique(pi, b, b);
    assert RotateState(pi, Initial(adj)).history == [b];
  }

  function RotateActions(pi: seq<nat>, actions: seq<Action>): seq<Action> {
    seq(|actions|, i requires 0 <= i < |actions| => RotateAction(pi, actions[i]))
  }

  /** Rotating all actions of a game from the empty board rotates every outcome of it: refused for the same
      reason, or the rotated final state with the rotated ownership and the same margin. */
  ghost predicate GameRotates(adj: Adjacency, pi: seq<nat>, actions: seq<Action>, komi: real) {
    && IsPermutation(pi) && |pi| == |adj| > 0
    && var rotated := Play(adj, Initial(adj), RotateActions(pi, actions));
       match Play(adj, Initial(adj), actions)
       case Rejected(reason) => rotated == Rejected(reason)
       case Ok(t) => Fits(pi, t) && rotated == Ok(RotateState(pi, t)) && ScoreRotates(adj, pi, t.stones, komi)
  }

  ghost predicate ScoreRotates(adj: Adjacency, pi: seq<nat>, b: Board, komi: real)
    requires IsPermutation(pi) && |b| == |pi|
  {
    var score, turned := Score(adj, b, komi), Score(adj, Permuted(pi, b), komi);
    |score.ownership| == |pi| && turned == score.(ownership := Permuted(pi, score.ownership))
  }

  /** Every game commutes with every rotation, for every size and each of the 24 matrices. */
  lemma RotatedGames(n: nat, adj: Adjacency, rel: seq<seq<CubeTopology.Relation>>, m: CubeMatrices.Matrix, actions: seq<Action>, komi: real)
    requires n >= 2 && CubeBuild.IsCubeGraph(n, adj, rel) && CubeMatrices.IsRotation(m)
    ensures GameRotates(adj, CubeRotations.Permutation(n, m), actions, komi)
  {
    hide CubeMatrices.IsRotation, CubeBuild.IsCubeGraph, CubeRotations.Permutation, ScoreRotates, RotateAction, WellFormed, RotateState;
    var pi := CubeRotations.Permutation(n, m);
    CubeRotations.RotationIsAutomorphism(n, adj, rel, m);
    CubeSurface.CubeGraphValid(n, adj, rel);
    AdjacencyHasPoints(adj);
    InitialRotates(adj, pi);
    GamesCommute(adj, adj, pi, Initial(adj), actions);
    match Play(adj, Initial(adj), actions)
    case Rejected(_) =>
    case Ok(t) => ScoreRotated(adj, pi, t.stones, komi);
  }

  lemma ScoreRotated(adj: Adjacency, pi: seq<nat>, b: Board, komi: real)
    requires WellFormed(adj) && Isomorphism(adj, adj, pi) && |b| == |pi|
    ensures ScoreRotates(adj, pi, b, komi)
  {
    hide WellFormed, Isomorphism;
    IsomorphismPermutes(adj, adj, pi);
    ScoreCommutes(adj, adj, pi, b, komi);
  }

  lemma AdjacencyHasPoints(adj: Adjacency)
    requires WellFormed(adj)
    ensures |adj| > 0
  {
  }
}
