/** From the live game to its training samples: what self-play hands out is what the target builder can use. */
module LiveTargets {
  import opened Options
  import Topology
  import opened Scoring
  import GoMoves
  import opened GoRules
  import opened GameReplay
  import opened SelfPlayGame
  import opened TrainingTargets

  /** A formally finished game with a lawful search: its record replays for the target builder and carries the score
      of its own last position. */
  lemma FinishedCarriesScore(game: CooperativeGame)
    requires game.Valid() && game.progress == Ended(DoublePass) && game.Straight()
    ensures var r := game.RecordNow(DoublePass);
      |r.positions| == |r.trace| && TargetReplays(game.adj, r) && CarriesScore(game.adj, game.komi, r) && !r.technical
    ensures PointsTold(game.adj, game.komi, game.RecordNow(DoublePass))
  {
    hide Scoring.Score, Replayed, IsLegalMask, TargetReplays, MasksLegal, DeepOk, GoMoves.OwnersTold, GoMoves.PointsCounted;
    game.FinishedReplays();
    assert game.trace[..|game.trace|] == game.trace;
    DeepRecordsBuild(game.adj, game.RecordNow(DoublePass));
    var last := Replayed(game.adj, game.trace).value.stones;
    GoMoves.ScoreExactly(game.adj, last, game.komi);
    CountedAreas(last, game.komi, Scoring.Score(game.adj, last, game.komi), game.RecordNow(DoublePass));
  }

  /** The score fields of a record, point by point: who owns what in the last position, each colour's points and the
      neutral ones counted, the margin with komi on White's side, and the winner by its sign. */
  ghost predicate PointsTold(adj: Topology.Adjacency, komi: real, r: Record)
    requires Topology.WellFormed(adj)
  {
    Replayed(adj, r.trace).Ok? && GoMoves.OwnersTold(adj, Replayed(adj, r.trace).value.stones, r.ownership) && AreasCounted(komi, r)
  }

  ghost predicate AreasCounted(komi: real, r: Record) {
    var o := r.ownership;
    && r.blackArea == Some(|set p: nat | p < |o| && o[p] == OwnedBlack|) && r.whiteArea == Some(|set p: nat | p < |o| && o[p] == OwnedWhite|)
    && r.neutralPoints == Some(|set p: nat | p < |o| && o[p] == Neutral|)
    && r.margin == Some((r.blackArea.value - r.whiteArea.value) as real - komi)
    && r.formal == Some(if r.margin.value > 0.0 then BlackWins else if r.margin.value < 0.0 then WhiteWins else Draw)
  }

  lemma CountedAreas(b: Board, komi: real, score: GoldenScore, r: Record)
    requires GoMoves.PointsCounted(b, komi, score) && ScoreStored(score, r.formal, r.ownership, r.blackArea, r.whiteArea, r.neutralPoints, r.margin)
    ensures AreasCounted(komi, r)
  {
    assert (set p: nat | p < |b| && score.ownership[p] == OwnedBlack) == set p: nat | p < |r.ownership| && r.ownership[p] == OwnedBlack;
    assert (set p: nat | p < |b| && score.ownership[p] == OwnedWhite) == set p: nat | p < |r.ownership| && r.ownership[p] == OwnedWhite;
    assert (set p: nat | p < |b| && score.ownership[p] == Neutral) == set p: nat | p < |r.ownership| && r.ownership[p] == Neutral;
  }

  /** The whole chain: the record of a live game passes replay, gives one sample per ply, and every sample agrees
      with itself. */
  method SamplesOfGame(game: CooperativeGame) returns (samples: seq<Sample>)
    requires game.Valid() && game.progress == Ended(DoublePass) && game.Straight()
    ensures |samples| == |game.trace|
    ensures forall k :: 0 <= k < |samples| ==> SelfConsistent(|game.adj|, game.komi, samples[k], k) && samples[k].selected == game.trace[k]
                                                 && samples[k].ply == k + 1 && samples[k].mask == game.positions[k].mask
  {
    hide Replayed, TargetReplays, CarriesScore, SelfConsistent, IsLegalMask, DeepOk, MasksLegal;
    FinishedCarriesScore(game);
    CarriedIsFormal(game.adj, game.komi, game.RecordNow(DoublePass));
    var built := BuildFormalSamples(game.adj, game.komi, game.RecordNow(DoublePass));
    samples := built.samples;
    PliesCounted(game);
    forall k | 0 <= k < |samples| ensures SelfConsistent(|game.adj|, game.komi, samples[k], k) {
      SamplesAreConsistent(game.adj, game.komi, game.RecordNow(DoublePass), k);
    }
  }

  /** The plies of a game are numbered from one, and the sides are those of the replay. */
  lemma PliesCounted(game: CooperativeGame)
    requires game.Valid() && game.progress == Ended(DoublePass)
    ensures |game.positions| == |game.trace| && forall k :: 0 <= k < |game.trace| ==>
              game.positions[k].ply == k + 1 && game.positions[k].selected == game.trace[k] && game.positions[k].side == (if k % 2 == 0 then Black else White)
  {
    hide Replayed, Scoring.Score;
    forall k: nat | k < |game.trace|
      ensures game.positions[k].ply == k + 1 && game.positions[k].selected == game.trace[k] && game.positions[k].side == (if k % 2 == 0 then Black else White)
    {
      assert RecordedAt(game.adj, game.positions, game.trace, k);
      SidesAlternate(game.adj, game.trace[..k]);
    }
  }

  lemma CarriedIsFormal(adj: Topology.Adjacency, komi: real, r: Record)
    requires Topology.WellFormed(adj) && CarriesScore(adj, komi, r)
    ensures r.formal.Some? && r.margin.Some?
  {
  }
}
