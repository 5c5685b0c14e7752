/** What the checks on a record and the samples of a record come to, told action by action. */
module RecordChecks {
  import opened Options
  import opened Topology
  import opened GoRules
  import opened GoInvariants
  import opened Scoring
  import opened GameReplay
  import SelfPlayGame
  import opened TrainingTargets

  // ----- masks and endings -----

  /** The mask of a state marks exactly the points and the pass that the rules allow. */
  ghost predicate MaskTells(adj: Adjacency, s: State, mask: seq<bool>)
    requires Shaped(adj, s)
  {
    && |mask| == |adj| + 1
    && forall i: nat :: i < |mask| ==> (mask[i] <==> ApplyAction(adj, s, if i < |adj| then PointId(i) else Pass).Ok?)
  }

  lemma MaskMeans(adj: Adjacency, s: State, mask: seq<bool>)
    requires Shaped(adj, s)
    ensures IsLegalMask(adj, s, mask) <==> MaskTells(adj, s, mask)
  {
    hide ProbePoint;
    if |mask| == |adj| + 1 {
      assert MaskTells(adj, s, mask) ==> (mask[|adj|] <==> ApplyAction(adj, s, Pass).Ok?);
    }
  }

  predicate TwoPasses(points: nat, trace: seq<nat>) {
    |trace| >= 2 && trace[|trace| - 1] == points && trace[|trace| - 2] == points
  }

  lemma {:induction false} PassesBounded(adj: Adjacency, trace: seq<nat>)
    requires WellFormed(adj) && Replayed(adj, trace).Ok?
    ensures 0 <= Replayed(adj, trace).value.passes <= 2
  {
    hide Replayed, ProbePoint;
    ReplayStep(adj, [], 0);
    if trace != [] {
      var last := |trace| - 1;
      assert trace[..last] + [trace[last]] == trace;
      PrefixReplays(adj, trace, last);
      PassesBounded(adj, trace[..last]);
      ReplayStep(adj, trace[..last], trace[last]);
    }
  }

  /** A legal game is over exactly when its last two actions are passes. */
  lemma OverExactly(adj: Adjacency, trace: seq<nat>)
    requires WellFormed(adj) && Replayed(adj, trace).Ok?
    ensures Replayed(adj, trace).value.Terminal() <==> TwoPasses(|adj|, trace)
  {
    hide Replayed, ProbePoint;
    SelfPlayGame.TerminalByTwoPasses(adj, trace);
    PassesBounded(adj, trace);
    if TwoPasses(|adj|, trace) {
      var last := |trace| - 1;
      assert trace[..last] + [trace[last]] == trace;
      PrefixReplays(adj, trace, last);
      PrefixReplays(adj, trace, last - 1);
      ReplayStep(adj, trace[..last], trace[last]);
      assert trace[..last][..last - 1] == trace[..last - 1] && trace[..last - 1] + [trace[last - 1]] == trace[..last];
      ReplayStep(adj, trace[..last - 1], trace[last - 1]);
      PassesBounded(adj, trace[..last - 1]);
    }
  }

  // ----- the checks without replay -----

  /** A record is refused without replay exactly for one of these: lists of different lengths, an action out of range, a
      position with no ply, no side or a mask of the wrong size, a selected action the mask does not mark, a winner
      without two passes or two passes without a winner, a technical record with a winner. */
  lemma RefusedExactly(points: nat, r: Record)
    ensures !ShallowOk(points, r) <==>
      || |r.positions| != |r.trace|
      || (exists k :: 0 <= k < |r.trace| && r.trace[k] > points)
      || (exists k :: 0 <= k < |r.positions| &&
            var p := r.positions[k];
            p.ply == 0 || p.side == Empty || |p.mask| != points + 1 || p.selected > points || !p.mask[p.selected])
      || (r.completion == DoublePass && r.formal.None?) || (r.completion != DoublePass && r.formal.Some?)
      || (r.technical && r.formal.Some?)
  {
    if k :| 0 <= k < |r.positions| && !PositionOk(points, r.positions[k]) {
      assert r.positions[k] == r.positions[k];
    }
  }

  // ----- deep validation -----

  /** A position as played: the sides alternate from Black, the action recorded is the one of the trace, and the mask is
      the one of the state it was played in. */
  ghost predicate AsPlayed(adj: Adjacency, r: Record, k: nat)
    requires WellFormed(adj) && k < |r.trace| == |r.positions|
  {
    && r.positions[k].side == (if k % 2 == 0 then Black else White) && r.positions[k].selected == r.trace[k]
    && Replayed(adj, r.trace[..k]).Ok? && MaskTells(adj, Replayed(adj, r.trace[..k]).value, r.positions[k].mask)
  }

  /** The score fields: all there with a winner after two passes, none otherwise. */
  predicate FieldsFit(points: nat, r: Record) {
    if TwoPasses(points, r.trace) then
      && r.completion == DoublePass && r.formal.Some? && |r.ownership| == points
      && r.blackArea.Some? && r.whiteArea.Some? && r.neutralPoints.Some? && r.margin.Some?
    else
      && r.completion != DoublePass && r.ownership == []
      && r.blackArea.None? && r.whiteArea.None? && r.neutralPoints.None? && r.margin.None?
  }

  /** Deep validation accepts exactly the records of legal games, position by position as played, whose score fields
      fit the way they ended. */
  lemma AcceptedExactly(adj: Adjacency, r: Record)
    requires WellFormed(adj) && |r.positions| == |r.trace|
    ensures DeepOk(adj, r) <==>
      && Replayed(adj, r.trace).Ok? && FieldsFit(|adj|, r) && forall k: nat :: k < |r.trace| ==> AsPlayed(adj, r, k)
  {
    hide Replayed, IsLegalMask, MaskTells, ApplyAction;
    if Replayed(adj, r.trace).Ok? {
      assert r.trace[..|r.trace|] == r.trace;
      OverExactly(adj, r.trace);
      assert TwoPasses(|adj|, r.trace) ==> r.trace[|r.trace| - 2..] == [|adj|, |adj|];
      forall k: nat | k < |r.trace| ensures PositionReplays(adj, r, k) <==> AsPlayed(adj, r, k) {
        PositionExactly(adj, r, k);
      }
    }
  }

  lemma PositionExactly(adj: Adjacency, r: Record, k: nat)
    requires WellFormed(adj) && |r.positions| == |r.trace| && Replayed(adj, r.trace).Ok? && k < |r.trace|
    ensures PositionReplays(adj, r, k) <==> AsPlayed(adj, r, k)
  {
    hide Replayed, IsLegalMask, MaskTells, ApplyAction;
    PrefixReplays(adj, r.trace, k);
    PrefixReplays(adj, r.trace, k + 1);
    assert r.trace[..k] + [r.trace[k]] == r.trace[..k + 1];
    ReplayStep(adj, r.trace[..k], r.trace[k]);
    SidesAlternate(adj, r.trace[..k]);
    var s := Replayed(adj, r.trace[..k]).value;
    MaskMeans(adj, s, r.positions[k].mask);
    IndexInRange(adj, s, r.trace[k]);
    if IsLegalMask(adj, s, r.positions[k].mask) {
      MaskedIsLegal(adj, s, r.positions[k].mask, r.trace[k]);
      MaskLong(adj, s, r.positions[k].mask);
    }
  }

  lemma MaskLong(adj: Adjacency, s: State, mask: seq<bool>)
    requires Shaped(adj, s) && IsLegalMask(adj, s, mask)
    ensures |mask| == |adj| + 1
  {
    hide ProbeAction;
  }

  /** What the target builder accepts: the same game, without a look at the recorded sides. */
  lemma TargetsExactly(adj: Adjacency, r: Record)
    requires WellFormed(adj) && |r.positions| == |r.trace|
    ensures TargetReplays(adj, r) <==>
      && Replayed(adj, r.trace).Ok? && TwoPasses(|adj|, r.trace)
      && forall k: nat :: k < |r.trace| ==>
           && r.positions[k].selected == r.trace[k] && Replayed(adj, r.trace[..k]).Ok?
           && MaskTells(adj, Replayed(adj, r.trace[..k]).value, r.positions[k].mask)
  {
    hide Replayed, IsLegalMask, MaskTells;
    if Replayed(adj, r.trace).Ok? {
      OverExactly(adj, r.trace);
      forall k: nat | k < |r.trace| && Replayed(adj, r.trace[..k]).Ok?
        ensures IsLegalMask(adj, Replayed(adj, r.trace[..k]).value, r.positions[k].mask) <==> MaskTells(adj, Replayed(adj, r.trace[..k]).value, r.positions[k].mask)
      {
        MaskMeans(adj, Replayed(adj, r.trace[..k]).value, r.positions[k].mask);
      }
      forall k: nat | k < |r.trace| ensures TargetReplaysAt(adj, r, k) <==>
        && r.positions[k].selected == r.trace[k] && Replayed(adj, r.trace[..k]).Ok?
        && MaskTells(adj, Replayed(adj, r.trace[..k]).value, r.positions[k].mask)
      {
      }
    }
  }

  /** One sample, point by point: the recorded mask, action and ply, and winner, owners and score as the side to move
      sees them. */
  lemma SampleExactly(adj: Adjacency, komi: real, r: Record, k: nat)
    requires WellFormed(adj) && k < |r.trace| == |r.positions| && Replayed(adj, r.trace[..k]).Ok? && r.formal.Some? && r.margin.Some?
    ensures var x := SampleAt(adj, komi, r, k);
      && x.mask == r.positions[k].mask && x.selected == r.trace[k] && x.ply == r.positions[k].ply
      && x.side == (if k % 2 == 0 then Black else White)
      && var own, theirs := if k % 2 == 0 then OwnedBlack else OwnedWhite, if k % 2 == 0 then OwnedWhite else OwnedBlack;
         && |x.labels| == |r.ownership|
         && (forall p :: 0 <= p < |x.labels| ==>
               (x.labels[p] == Own <==> r.ownership[p] == own) && (x.labels[p] == Opponents <==> r.ownership[p] == theirs))
         && (x.wdl == Win <==> r.formal.value == if k % 2 == 0 then BlackWins else WhiteWins) && (x.wdl == Drawn <==> r.formal.value == Draw)
         && x.scoreExact == (if k % 2 == 0 then r.margin.value else -r.margin.value)
         && x.scoreNormalized * (|adj| as real + if komi >= 0.0 then komi else -komi) == x.scoreExact
  {
    hide Replayed;
    SidesAlternate(adj, r.trace[..k]);
    HasPoints(adj, komi);
    NormalizedBack(SampleAt(adj, komi, r, k).scoreExact, Denominator(|adj|, komi));
  }
}
