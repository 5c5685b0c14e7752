/** Training samples of a formal record: one per ply, each seen from the side to move. */
module TrainingTargets {
  import opened Options
  import opened Topology
  import opened GoRules
  import opened GoInvariants
  import opened GoEngine
  import opened Scoring
  import opened GameReplay

  datatype Label = Own | Opponents | Nobodys

  datatype Wdl = Win | Drawn | Loss

  datatype Sample = Sample(wdl: Wdl, labels: seq<Label>, scoreExact: real, scoreNormalized: real,
                           mask: seq<bool>, selected: nat, ply: nat, side: Stone)

  // ----- projections -----

  function ProjectWdl(winner: Winner, side: Stone): Wdl {
    if winner == Draw then Drawn else if (winner == BlackWins) == (side == Black) then Win else Loss
  }

  function ProjectOwner(owner: Ownership, side: Stone): Label {
    if owner == Neutral then Nobodys else if (owner == OwnedBlack) == (side == Black) then Own else Opponents
  }

  method ProjectOwnership(ownership: seq<Ownership>, side: Stone) returns (labels: seq<Label>)
    ensures labels == Labels(ownership, side)
  {
    labels := [];
    for k := 0 to |ownership|
      invariant labels == Labels(ownership, side)[..k]
    {
      labels := labels + [if ownership[k] == Neutral then Nobodys else if (ownership[k] == OwnedBlack) == (side == Black) then Own else Opponents];
    }
  }

  function Labels(ownership: seq<Ownership>, side: Stone): (labels: seq<Label>)
    ensures |labels| == |ownership|
  {
    seq(|ownership|, i requires 0 <= i < |ownership| => ProjectOwner(ownership[i], side))
  }

  function ProjectScore(margin: real, side: Stone): real {
    if side == Black then margin else -margin
  }

  function Abs(x: real): real { if x >= 0.0 then x else -x }

  function Denominator(points: nat, komi: real): real { points as real + Abs(komi) }

  // ----- the samples of a record -----

  /** The k-th sample, from the replayed state before the k-th action. */
  ghost function SampleAt(adj: Adjacency, komi: real, r: Record, k: nat): Sample
    requires WellFormed(adj) && k < |r.trace| == |r.positions| && Replayed(adj, r.trace[..k]).Ok?
    requires r.formal.Some? && r.margin.Some?
  {
    var side := Replayed(adj, r.trace[..k]).value.side;
    var score := ProjectScore(r.margin.value, side);
    HasPoints(adj, komi);
    Sample(ProjectWdl(r.formal.value, side), Labels(r.ownership, side), score, score / Denominator(|adj|, komi),
           r.positions[k].mask, r.trace[k], r.positions[k].ply, side)
  }

  lemma HasPoints(adj: Adjacency, komi: real)
    requires WellFormed(adj)
    ensures Denominator(|adj|, komi) >= 1.0
  {
  }

  /** What the builder's replay compares. */
  ghost predicate TargetReplays(adj: Adjacency, r: Record)
    requires WellFormed(adj) && |r.positions| == |r.trace|
  {
    && Replayed(adj, r.trace).Ok? && Replayed(adj, r.trace).value.Terminal()
    && forall k :: 0 <= k < |r.trace| ==> TargetReplaysAt(adj, r, k)
  }

  ghost predicate TargetReplaysAt(adj: Adjacency, r: Record, k: nat)
    requires WellFormed(adj) && k < |r.trace| == |r.positions|
  {
    && Replayed(adj, r.trace[..k]).Ok? && IsLegalMask(adj, Replayed(adj, r.trace[..k]).value, r.positions[k].mask)
    && r.positions[k].selected == r.trace[k]
  }

  datatype Built = Samples(samples: seq<Sample>) | NoSamples | Drift

  /** Technical records give no samples; a formal record is replayed, and the samples are built exactly when the
      replay agrees with the recorded masks and actions and ends in two passes. */
  method BuildFormalSamples(adj: Adjacency, komi: real, r: Record) returns (built: Built)
    requires WellFormed(adj) && |r.positions| == |r.trace|
    ensures r.formal.None? || r.technical ==> built == NoSamples
    ensures r.formal.Some? && !r.technical ==> (built.Samples? <==> r.margin.Some? && TargetReplays(adj, r) && |r.ownership| == |adj|)
    ensures built.Samples? ==> r.formal.Some? && r.margin.Some? && |built.samples| == |r.trace|
    ensures built.Samples? ==> forall k :: 0 <= k < |r.trace| ==> Replayed(adj, r.trace[..k]).Ok? && built.samples[k] == SampleAt(adj, komi, r, k)
  {
    hide Replayed, ApplyAction, IsLegalMask;
    if r.formal.None? || r.technical {
      return NoSamples;
    }
    if r.margin.None? {
      return Drift;
    }
    var state := Initial(adj);
    var samples: seq<Sample> := [];
    ReplayStep(adj, [], 0);
    assert r.trace[..0] == [];
    HasPoints(adj, komi);
    for k := 0 to |r.trace|
      invariant Replayed(adj, r.trace[..k]) == Ok(state) && Shaped(adj, state) && |samples| == k
      invariant forall j :: 0 <= j < k ==> TargetReplaysAt(adj, r, j) && samples[j] == SampleAt(adj, komi, r, j)
      invariant k > 0 ==> |r.ownership| == |adj|
    {
      var position, action := r.positions[k], r.trace[k];
      var points, pass, mask := PrepareLegalActions(adj, state);
      MaskUnique(adj, state, mask, position.mask);
      if position.mask != mask || position.selected != action {
        assert !TargetReplaysAt(adj, r, k);
        return Drift;
      }
      var labels := ProjectOwnership(r.ownership, state.side);
      if |labels| != |adj| {
        return Drift;
      }
      var score := ProjectScore(r.margin.value, state.side);
      samples := samples + [Sample(ProjectWdl(r.formal.value, state.side), labels, score, score / Denominator(|adj|, komi),
                                   mask, action, position.ply, state.side)];
      ReplayStep(adj, r.trace[..k], action);
      assert r.trace[..k] + [action] == r.trace[..k + 1];
      var ruled := RulesAction(|adj|, action);
      if ruled.None? {
        OutOfRange(adj, state, action);
        NotReplayed(adj, r.trace, k, state);
        return Drift;
      }
      assert ActionsOf(|adj|, [action])[0] == ruled.value;
      var applied := Apply(adj, state, ruled.value);
      if applied.Rejected? {
        NotReplayed(adj, r.trace, k, state);
        return Drift;
      }
      state := applied.value.after;
    }
    assert r.trace[..|r.trace|] == r.trace;
    if !state.Terminal() {
      return Drift;
    }
    forall k | 0 <= k < |r.trace| ensures Replayed(adj, r.trace[..k]).Ok? && samples[k] == SampleAt(adj, komi, r, k) {
      assert TargetReplaysAt(adj, r, k);
    }
    EndsNotEmpty(adj, r);
    return Samples(samples);
  }

  /** A trace that ends a game is not empty. */
  lemma EndsNotEmpty(adj: Adjacency, r: Record)
    requires WellFormed(adj) && |r.positions| == |r.trace| && TargetReplays(adj, r)
    ensures r.trace != []
  {
    ReplayStep(adj, [], 0);
  }

  lemma OutOfRange(adj: Adjacency, s: State, index: nat)
    requires Shaped(adj, s) && RulesAction(|adj|, index).None?
    ensures ApplyAction(adj, s, ActionsOf(|adj|, [index])[0]).Rejected?
  {
  }

  lemma NotReplayed(adj: Adjacency, trace: seq<nat>, k: nat, s: State)
    requires WellFormed(adj) && k < |trace| && Replayed(adj, trace[..k]) == Ok(s)
    requires ApplyAction(adj, s, ActionsOf(|adj|, [trace[k]])[0]).Rejected?
    ensures Replayed(adj, trace).Rejected?
  {
    hide Replayed, ApplyAction;
    ReplayStep(adj, trace[..k], trace[k]);
    assert trace[..k] + [trace[k]] == trace[..k + 1];
    if Replayed(adj, trace).Ok? {
      PrefixReplays(adj, trace, k + 1);
    }
  }

  /** Every record deep validation accepts as formal has its samples. */
  lemma DeepRecordsBuild(adj: Adjacency, r: Record)
    requires WellFormed(adj) && |r.positions| == |r.trace| && DeepOk(adj, r) && r.completion == DoublePass
    ensures TargetReplays(adj, r) && r.margin.Some? && r.formal.Some? && |r.ownership| == |adj|
  {
    hide Replayed, IsLegalMask;
    forall k | 0 <= k < |r.trace| ensures TargetReplaysAt(adj, r, k) {
      assert PositionReplays(adj, r, k);
    }
  }

  // ----- what the samples mean -----

  function Count<T(==)>(s: seq<T>, x: T): nat {
    if s == [] then 0 else Count(s[..|s| - 1], x) + if s[|s| - 1] == x then 1 else 0
  }

  ghost function Where<T>(s: seq<T>, x: T): set<nat> {
    set i: nat | i < |s| && s[i] == x
  }

  lemma {:induction false} CountIsSize<T>(s: seq<T>, x: T)
    ensures |Where(s, x)| == Count(s, x)
  {
    if s != [] {
      var last := |s| - 1;
      CountIsSize(s[..last], x);
      var before := Where(s[..last], x);
      assert Where(s, x) == before + if s[last] == x then {last} else {};
    }
  }

  /** The areas of a score are the counts in its ownership. */
  lemma OwnersCounted(adj: Adjacency, b: Board, komi: real)
    ensures var score := Score(adj, b, komi);
      score.blackArea == Count(score.ownership, OwnedBlack) && score.whiteArea == Count(score.ownership, OwnedWhite)
  {
    hide OwnerOf;
    var score := Score(adj, b, komi);
    OwnerCounted(adj, b, komi, OwnedBlack);
    OwnerCounted(adj, b, komi, OwnedWhite);
  }

  lemma OwnerCounted(adj: Adjacency, b: Board, komi: real, o: Ownership)
    ensures |Owned(adj, b, UpTo(|b|), o)| == Count(Score(adj, b, komi).ownership, o)
  {
    hide OwnerOf;
    var ownership := Score(adj, b, komi).ownership;
    CountIsSize(ownership, o);
    assert Where(ownership, o) == Owned(adj, b, UpTo(|b|), o);
  }

  lemma {:induction false} LabelsCounted(ownership: seq<Ownership>, side: Stone)
    requires side != Empty
    ensures Count(Labels(ownership, side), Own) == Count(ownership, if side == Black then OwnedBlack else OwnedWhite)
    ensures Count(Labels(ownership, side), Opponents) == Count(ownership, if side == Black then OwnedWhite else OwnedBlack)
  {
    if ownership != [] {
      var last := |ownership| - 1;
      LabelsCounted(ownership[..last], side);
      assert Labels(ownership, side)[..last] == Labels(ownership[..last], side);
    }
  }

  /** The sides alternate from Black. */
  lemma {:induction false} SidesAlternate(adj: Adjacency, trace: seq<nat>)
    requires WellFormed(adj) && Replayed(adj, trace).Ok?
    ensures Replayed(adj, trace).value.side == if |trace| % 2 == 0 then Black else White
  {
    hide Replayed, ApplyAction;
    ReplayStep(adj, [], 0);
    if trace != [] {
      var last := |trace| - 1;
      assert trace[..last] + [trace[last]] == trace;
      PrefixReplays(adj, trace, last);
      SidesAlternate(adj, trace[..last]);
      ReplayStep(adj, trace[..last], trace[last]);
      MoveShows(adj, Replayed(adj, trace[..last]).value, ActionsOf(|adj|, [trace[last]])[0]);
    }
  }

  /** The record carries the score of its own final position, as a finished game does. */
  ghost predicate CarriesScore(adj: Adjacency, komi: real, r: Record)
    requires WellFormed(adj)
  {
    && Replayed(adj, r.trace).Ok? && r.formal.Some? && r.margin.Some?
    && var score := Score(adj, Replayed(adj, r.trace).value.stones, komi);
       && r.ownership == score.ownership && r.margin.value == score.marginBlack
       && r.formal.value == if score.marginBlack > 0.0 then BlackWins else if score.marginBlack < 0.0 then WhiteWins else Draw
  }

  lemma NormalizedBack(a: real, d: real)
    requires d >= 1.0
    ensures (a / d) * d == a
  {
  }

  lemma Quotient(a: real, d: real)
    requires d >= 1.0 && -d <= a <= d
    ensures -1.0 <= a / d <= 1.0
  {
    assert (a / d) * d == a;
  }

  /** The k-th sample agrees with itself: sides alternate, the labels add up to the exact score with komi on the right
      side, the WDL class is the sign of the score, and the normalized score, the exact one over points plus komi's size,
      stays within one. */
  predicate SelfConsistent(points: nat, komi: real, x: Sample, k: nat) {
    && x.side == (if k % 2 == 0 then Black else White)
    && |x.labels| == points
    && (Count(x.labels, Own) - Count(x.labels, Opponents)) as real + (if x.side == Black then -komi else komi) == x.scoreExact
    && (x.wdl == Win <==> x.scoreExact > 0.0) && (x.wdl == Drawn <==> x.scoreExact == 0.0) && (x.wdl == Loss <==> x.scoreExact < 0.0)
    && -1.0 <= x.scoreNormalized <= 1.0
    && x.scoreNormalized * (points as real + if komi >= 0.0 then komi else -komi) == x.scoreExact
  }

  /** What a caller can check of the score fields. */
  predicate ScoreFits(points: nat, komi: real, r: Record)
    requires r.formal.Some? && r.margin.Some?
  {
    && |r.ownership| == points
    && r.margin.value == (Count(r.ownership, OwnedBlack) - Count(r.ownership, OwnedWhite)) as real - komi
    && r.formal.value == if r.margin.value > 0.0 then BlackWins else if r.margin.value < 0.0 then WhiteWins else Draw
  }

  /** Exactly the records whose score fields fit give consistent samples. */
  lemma ConsistentExactly(adj: Adjacency, komi: real, r: Record)
    requires WellFormed(adj) && |r.positions| == |r.trace| && r.trace != [] && r.formal.Some? && r.margin.Some?
    requires forall k :: 0 <= k < |r.trace| ==> Replayed(adj, r.trace[..k]).Ok?
    ensures (forall k :: 0 <= k < |r.trace| ==> SelfConsistent(|adj|, komi, SampleAt(adj, komi, r, k), k)) <==> ScoreFits(|adj|, komi, r)
  {
    hide Replayed, SelfConsistent, ScoreFits, SampleAt;
    forall k | 0 <= k < |r.trace| ensures SelfConsistent(|adj|, komi, SampleAt(adj, komi, r, k), k) <==> ScoreFits(|adj|, komi, r) {
      ConsistentAt(adj, komi, r, k);
    }
    if forall k :: 0 <= k < |r.trace| ==> SelfConsistent(|adj|, komi, SampleAt(adj, komi, r, k), k) {
      assert SelfConsistent(|adj|, komi, SampleAt(adj, komi, r, 0), 0);
    }
  }

  /** For formal records deep validation accepts that is the whole difference between consistent and inconsistent. */
  lemma AcceptedConsistentExactly(adj: Adjacency, komi: real, r: Record)
    requires WellFormed(adj) && |r.positions| == |r.trace| && DeepOk(adj, r) && r.completion == DoublePass
    ensures r.formal.Some? && r.margin.Some?
    ensures forall k :: 0 <= k < |r.trace| ==> Replayed(adj, r.trace[..k]).Ok?
    ensures (forall k :: 0 <= k < |r.trace| ==> SelfConsistent(|adj|, komi, SampleAt(adj, komi, r, k), k)) <==> ScoreFits(|adj|, komi, r)
  {
    hide Replayed, SelfConsistent, ScoreFits, SampleAt, IsLegalMask;
    DeepRecordsBuild(adj, r);
    EndsNotEmpty(adj, r);
    forall k | 0 <= k < |r.trace| ensures Replayed(adj, r.trace[..k]).Ok? {
      assert TargetReplaysAt(adj, r, k);
    }
    ConsistentExactly(adj, komi, r);
  }

  lemma ConsistentAt(adj: Adjacency, komi: real, r: Record, k: nat)
    requires WellFormed(adj) && k < |r.trace| == |r.positions| && Replayed(adj, r.trace[..k]).Ok? && r.formal.Some? && r.margin.Some?
    ensures SelfConsistent(|adj|, komi, SampleAt(adj, komi, r, k), k) <==> ScoreFits(|adj|, komi, r)
  {
    hide Replayed, Count, IsLegalMask, Labels;
    var x := SampleAt(adj, komi, r, k);
    SidesAlternate(adj, r.trace[..k]);
    LabelsCounted(r.ownership, x.side);
    CountsFit(r.ownership);
    HasPoints(adj, komi);
    NormalizedBack(x.scoreExact, Denominator(|adj|, komi));
    if |r.ownership| == |adj| && -Denominator(|adj|, komi) <= x.scoreExact <= Denominator(|adj|, komi) {
      Quotient(x.scoreExact, Denominator(|adj|, komi));
    }
  }

  lemma {:induction false} CountsFit(s: seq<Ownership>)
    ensures Count(s, OwnedBlack) + Count(s, OwnedWhite) <= |s|
  {
    if s != [] {
      CountsFit(s[..|s| - 1]);
    }
  }

  /** The score of a finished game fits, so its samples are consistent. */
  lemma SamplesAreConsistent(adj: Adjacency, komi: real, r: Record, k: nat)
    requires WellFormed(adj) && k < |r.trace| == |r.positions| && Replayed(adj, r.trace[..k]).Ok? && CarriesScore(adj, komi, r)
    ensures ScoreFits(|adj|, komi, r) && SelfConsistent(|adj|, komi, SampleAt(adj, komi, r, k), k)
  {
    hide Replayed, Owned, OwnerOf, Count, SelfConsistent, SampleAt;
    OwnersCounted(adj, Replayed(adj, r.trace).value.stones, komi);
    AreasPartition(adj, Replayed(adj, r.trace).value.stones, komi);
    ConsistentAt(adj, komi, r, k);
  }

  /** Deep validation replays boards, masks and turns, but not the score: a record whose ownership and margin were
      replaced by anything of the right shape is still accepted. */
  lemma ScoreIsNotReplayed(adj: Adjacency, r: Record, ownership: seq<Ownership>, margin: real)
    requires WellFormed(adj) && |r.positions| == |r.trace| && DeepOk(adj, r) && r.completion == DoublePass && |ownership| == |adj|
    ensures DeepOk(adj, r.(ownership := ownership, margin := Some(margin)))
  {
    hide Replayed, IsLegalMask;
    var r' := r.(ownership := ownership, margin := Some(margin));
    forall k | 0 <= k < |r.trace| ensures PositionReplays(adj, r', k) {
      assert PositionReplays(adj, r, k);
    }
  }

  /** Two passes on the empty board, with the legal masks and with every point neutral but a margin of one point more
      than komi leaves. */
  ghost function Contradictory(adj: Adjacency, komi: real): Record
    requires WellFormed(adj)
  {
    var first, second := Initial(adj), AfterPass(Initial(adj));
    Record([Position(1, Black, LegalMask(adj, first), |adj|), Position(2, White, LegalMask(adj, second), |adj|)], [|adj|, |adj|],
           DoublePass, Some(BlackWins), false, seq(|adj|, _ => Neutral), Some(0), Some(0), Some(|adj|), Some(1.0 - komi))
  }

  ghost function LegalMask(adj: Adjacency, s: State): (mask: seq<bool>)
    requires Shaped(adj, s)
    ensures IsLegalMask(adj, s, mask)
  {
    seq(|adj| + 1, p requires 0 <= p <= |adj| => if p < |adj| then LegalPoint(adj, s, p) else !s.Terminal())
  }

  /** So on every graph and for every komi there is a record deep validation accepts, and the builder turns into
      samples, none of which agrees with itself. */
  lemma AcceptedButInconsistent(adj: Adjacency, komi: real)
    requires WellFormed(adj)
    ensures var r := Contradictory(adj, komi);
      && ShallowOk(|adj|, r) && DeepOk(adj, r) && TargetReplays(adj, r)
      && forall k :: 0 <= k < 2 ==> Replayed(adj, r.trace[..k]).Ok? && !SelfConsistent(|adj|, komi, SampleAt(adj, komi, r, k), k)
  {
    hide LegalPoint, Replayed, SampleAt, SelfConsistent;
    var r := Contradictory(adj, komi);
    var p := |adj|;
    assert r.trace[..0] == [] && r.trace[..1] == [p] && [] + [p] == [p] && [p] + [p] == [p, p] && r.trace[..2] == [p, p] == r.trace;
    ReplayStep(adj, [], p);
    ReplayStep(adj, [p], p);
    forall k | 0 <= k < 2 ensures PositionReplays(adj, r, k) {
    }
    DeepRecordsBuild(adj, r);
    NeutralCounts(r.ownership);
    forall k | 0 <= k < 2 ensures Replayed(adj, r.trace[..k]).Ok? && !SelfConsistent(|adj|, komi, SampleAt(adj, komi, r, k), k) {
      ConsistentAt(adj, komi, r, k);
    }
  }

  lemma {:induction false} NeutralCounts(s: seq<Ownership>)
    requires forall i :: 0 <= i < |s| ==> s[i] == Neutral
    ensures Count(s, OwnedBlack) == 0 && Count(s, OwnedWhite) == 0
  {
    if s != [] {
      NeutralCounts(s[..|s| - 1]);
    }
  }
}
