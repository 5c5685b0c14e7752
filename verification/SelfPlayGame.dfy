/** One self-play game, suspended at every evaluation it needs: what it records is what a replay finds. */
module SelfPlayGame {
  import opened Options
  import opened Topology
  import opened GoRules
  import opened GoInvariants
  import opened GoEngine
  import opened Scoring
  import opened GameReplay

  // ----- the search, as the game sees it -----

  type Tree(==, !new)
  type Session(==, !new)
  type Payload(==, !new)
  type Evaluation(==, !new)

  /** What a search session shows: the evaluation it waits for, its result, or something malformed. */
  datatype SearchStep = Request(payload: Payload) | Result(visitsMatch: bool, mask: seq<bool>, action: Action) | Malformed

  /** A search: sessions are started on a position and read, given evaluations, and leave a tree behind.
      Starting and giving may raise. */
  datatype Search = Search(
    empty: Tree,
    start: (Tree, State, Context, nat) -> Option<Session>,
    look: Session -> SearchStep,
    give: (Session, Evaluation) -> Option<Session>,
    rest: (Session, Action) -> Tree)

  ghost function Given(search: Search, first: Session, evaluations: seq<Evaluation>): Option<Session> {
    if evaluations == [] then Some(first)
    else
      match Given(search, first, evaluations[..|evaluations| - 1])
      case None => None
      case Some(s) => search.give(s, evaluations[|evaluations| - 1])
  }

  /** A session that can arise when searching this state. */
  ghost predicate SearchOf(search: Search, state: State, s: Session) {
    exists tree: Tree, context: Context, ply: nat, evaluations: seq<Evaluation> ::
      search.start(tree, state, context, ply).Some? && Given(search, search.start(tree, state, context, ply).value, evaluations) == Some(s)
  }

  ghost predicate Lawful(adj: Adjacency, state: State, mask: seq<bool>, action: Action)
    requires Shaped(adj, state)
  {
    IsLegalMask(adj, state, mask) && ActionIndex(|adj|, action).Some? && ApplyAction(adj, state, action).Ok?
  }

  /** A search that returns the legal mask and a legal action for every position it is started on. */
  ghost predicate Honest(adj: Adjacency, search: Search) {
    forall state: State, s: Session ::
      Shaped(adj, state) && SearchOf(search, state, s) && search.look(s).Result? ==>
        Lawful(adj, state, search.look(s).mask, search.look(s).action)
  }

  /** A search that never raises and always ends with the agreed number of visits. */
  ghost predicate Steady(search: Search) {
    && (forall tree: Tree, state: State, context: Context, ply: nat :: search.start(tree, state, context, ply).Some?)
    && (forall s: Session :: !search.look(s).Malformed? && (search.look(s).Result? ==> search.look(s).visitsMatch))
  }

  lemma StartedIsSearch(search: Search, tree: Tree, state: State, context: Context, ply: nat)
    requires search.start(tree, state, context, ply).Some?
    ensures SearchOf(search, state, search.start(tree, state, context, ply).value)
  {
    assert Given(search, search.start(tree, state, context, ply).value, []) == Some(search.start(tree, state, context, ply).value);
  }

  lemma GivenIsSearch(search: Search, state: State, s: Session, evaluation: Evaluation)
    requires SearchOf(search, state, s) && search.give(s, evaluation).Some?
    ensures SearchOf(search, state, search.give(s, evaluation).value)
  {
    var tree: Tree, context: Context, ply: nat, evaluations: seq<Evaluation> :|
      search.start(tree, state, context, ply).Some? && Given(search, search.start(tree, state, context, ply).value, evaluations) == Some(s);
    var more := evaluations + [evaluation];
    assert more[..|evaluations|] == evaluations;
    assert Given(search, search.start(tree, state, context, ply).value, more) == search.give(s, evaluation);
  }

  // ----- the conversation between game and evaluator -----

  /** One finished ply: the tree and the history its search was started with, and the evaluations it was given. */
  datatype Ply = Ply(tree: Tree, context: Context, given: seq<Evaluation>)

  /** The session of a search on this position after these evaluations. */
  ghost function SessionAfter(search: Search, tree: Tree, state: State, context: Context, ply: nat, given: seq<Evaluation>): Option<Session> {
    match search.start(tree, state, context, ply) case None => None case Some(first) => Given(search, first, given)
  }

  ghost function LastSession(adj: Adjacency, search: Search, trace: seq<nat>, plies: seq<Ply>, k: nat): Option<Session>
    requires WellFormed(adj) && k < |plies| <= |trace| && Replayed(adj, trace[..k]).Ok?
  {
    SessionAfter(search, plies[k].tree, Replayed(adj, trace[..k]).value, plies[k].context, k + 1, plies[k].given)
  }

  /** Ply k: its search had the history of the trace so far, and its last session showed the recorded mask and action. */
  ghost predicate PlySearched(adj: Adjacency, search: Search, positions: seq<Position>, trace: seq<nat>, plies: seq<Ply>, k: nat)
    requires WellFormed(adj) && k < |plies| <= |trace| == |positions|
  {
    && Replayed(adj, trace[..k]).Ok? && IsHistory(adj, trace[..k], plies[k].context)
    && LastSession(adj, search, trace, plies, k).Some?
    && var shown := search.look(LastSession(adj, search, trace, plies, k).value);
       && shown.Result? && shown.visitsMatch && shown.mask == positions[k].mask && ActionIndex(|adj|, shown.action) == Some(trace[k])
  }

  /** The tree search number k starts from: the empty one, then what the search before left after its action. */
  ghost predicate TreeHandedOn(adj: Adjacency, search: Search, trace: seq<nat>, plies: seq<Ply>, k: nat, tree: Tree)
    requires WellFormed(adj) && k <= |plies| <= |trace|
  {
    if k == 0 then tree == search.empty
    else
      && Replayed(adj, trace[..k - 1]).Ok? && LastSession(adj, search, trace, plies, k - 1).Some? && RulesAction(|adj|, trace[k - 1]).Some?
      && tree == search.rest(LastSession(adj, search, trace, plies, k - 1).value, RulesAction(|adj|, trace[k - 1]).value)
  }

  ghost predicate Searched(adj: Adjacency, search: Search, positions: seq<Position>, trace: seq<nat>, plies: seq<Ply>, tree: Tree) {
    && WellFormed(adj) && |plies| <= |trace| == |positions|
    && (forall k :: 0 <= k < |plies| ==> PlySearched(adj, search, positions, trace, plies, k))
    && (forall k :: 0 <= k < |plies| ==> TreeHandedOn(adj, search, trace, plies, k, plies[k].tree))
    && TreeHandedOn(adj, search, trace, plies, |plies|, tree)
  }

  lemma PlySame(adj: Adjacency, search: Search, positions: seq<Position>, trace: seq<nat>, plies: seq<Ply>,
                positions': seq<Position>, trace': seq<nat>, plies': seq<Ply>, k: nat)
    requires WellFormed(adj) && k < |plies| <= |trace| == |positions| && |plies'| <= |trace'| == |positions'|
    requires positions <= positions' && trace <= trace' && plies <= plies'
    ensures trace'[..k] == trace[..k]
    ensures PlySearched(adj, search, positions', trace', plies', k) <==> PlySearched(adj, search, positions, trace, plies, k)
    ensures Replayed(adj, trace[..k]).Ok? ==> LastSession(adj, search, trace', plies', k) == LastSession(adj, search, trace, plies, k)
  {
    hide Replayed, IsHistory, Given;
    assert trace'[..k] == trace[..k];
    assert positions'[k] == positions[k] && trace'[k] == trace[k] && plies'[k] == plies[k];
  }

  lemma TreeSame(adj: Adjacency, search: Search, positions: seq<Position>, trace: seq<nat>, plies: seq<Ply>,
                 positions': seq<Position>, trace': seq<nat>, plies': seq<Ply>, k: nat, tree: Tree)
    requires WellFormed(adj) && k <= |plies| <= |trace| == |positions| && |plies'| <= |trace'| == |positions'|
    requires positions <= positions' && trace <= trace' && plies <= plies'
    ensures TreeHandedOn(adj, search, trace', plies', k, tree) <==> TreeHandedOn(adj, search, trace, plies, k, tree)
  {
    hide LastSession, Replayed;
    if k > 0 {
      PlySame(adj, search, positions, trace, plies, positions', trace', plies', k - 1);
    }
  }

  /** What was searched stays searched while more is recorded. */
  lemma SearchedLonger(adj: Adjacency, search: Search, positions: seq<Position>, trace: seq<nat>, plies: seq<Ply>, tree: Tree,
                       positions': seq<Position>, trace': seq<nat>)
    requires Searched(adj, search, positions, trace, plies, tree) && |trace'| == |positions'| && positions <= positions' && trace <= trace'
    ensures Searched(adj, search, positions', trace', plies, tree)
  {
    hide PlySearched, TreeHandedOn;
    forall k | 0 <= k < |plies| ensures PlySearched(adj, search, positions', trace', plies, k) && TreeHandedOn(adj, search, trace', plies, k, plies[k].tree) {
      PlySame(adj, search, positions, trace, plies, positions', trace', plies, k);
      TreeSame(adj, search, positions, trace, plies, positions', trace', plies, k, plies[k].tree);
    }
    TreeSame(adj, search, positions, trace, plies, positions', trace', plies, |plies|, tree);
  }

  /** One more ply, searched as recorded. */
  lemma SearchedPush(adj: Adjacency, search: Search, positions: seq<Position>, trace: seq<nat>, plies: seq<Ply>, ply: Ply, s: Session, action: Action)
    requires Searched(adj, search, positions, trace, plies, ply.tree) && |plies| + 1 == |trace|
    requires var k := |plies|;
      && Replayed(adj, trace[..k]).Ok? && IsHistory(adj, trace[..k], ply.context)
      && SessionAfter(search, ply.tree, Replayed(adj, trace[..k]).value, ply.context, k + 1, ply.given) == Some(s)
      && search.look(s) == Result(true, positions[k].mask, action) && ActionIndex(|adj|, action) == Some(trace[k])
    ensures Searched(adj, search, positions, trace, plies + [ply], search.rest(s, action))
  {
    hide PlySearched, TreeHandedOn, Replayed, IsHistory, SessionAfter;
    var last, longer := |plies|, plies + [ply];
    LastPly(adj, search, positions, trace, plies, ply, s, action);
    forall k | 0 <= k < |longer| ensures PlySearched(adj, search, positions, trace, longer, k) && TreeHandedOn(adj, search, trace, longer, k, longer[k].tree) {
      if k < last {
        PlySame(adj, search, positions, trace, plies, positions, trace, longer, k);
        TreeSame(adj, search, positions, trace, plies, positions, trace, longer, k, plies[k].tree);
        assert longer[k] == plies[k];
      } else {
        TreeSame(adj, search, positions, trace, plies, positions, trace, longer, last, ply.tree);
        assert longer[k] == ply;
      }
    }
  }

  lemma LastPly(adj: Adjacency, search: Search, positions: seq<Position>, trace: seq<nat>, plies: seq<Ply>, ply: Ply, s: Session, action: Action)
    requires WellFormed(adj) && |plies| + 1 == |trace| == |positions|
    requires var k := |plies|;
      && Replayed(adj, trace[..k]).Ok? && IsHistory(adj, trace[..k], ply.context)
      && SessionAfter(search, ply.tree, Replayed(adj, trace[..k]).value, ply.context, k + 1, ply.given) == Some(s)
      && search.look(s) == Result(true, positions[k].mask, action) && ActionIndex(|adj|, action) == Some(trace[k])
    ensures PlySearched(adj, search, positions, trace, plies + [ply], |plies|)
    ensures TreeHandedOn(adj, search, trace, plies + [ply], |plies| + 1, search.rest(s, action))
  {
    hide Replayed, IsHistory, SessionAfter;
    IndexRoundTrip(|adj|, trace[|plies|], action);
    assert (plies + [ply])[|plies|] == ply;
  }

  lemma HistoryUnique(adj: Adjacency, trace: seq<nat>, c: Context, c': Context)
    requires WellFormed(adj) && IsHistory(adj, trace, c) && IsHistory(adj, trace, c')
    ensures c == c'
  {
    hide BoardAt;
    assert c.previous == c'.previous;
  }

  lemma SamePly(adj: Adjacency, search: Search, positions: seq<Position>, trace: seq<nat>, plies: seq<Ply>,
                positions': seq<Position>, trace': seq<nat>, plies': seq<Ply>, k: nat)
    requires WellFormed(adj) && k < |plies| <= |trace| == |positions| && k < |plies'| <= |trace'| == |positions'|
    requires PlySearched(adj, search, positions, trace, plies, k) && PlySearched(adj, search, positions', trace', plies', k)
    requires trace[..k] == trace'[..k] && plies[k].given == plies'[k].given && plies[k].tree == plies'[k].tree
    ensures plies[k] == plies'[k] && positions[k].mask == positions'[k].mask && trace[k] == trace'[k]
  {
    hide Replayed, IsHistory, SessionAfter, WellFormed;
    HistoryUnique(adj, trace[..k], plies[k].context, plies'[k].context);
  }

  lemma SameTree(adj: Adjacency, search: Search, trace: seq<nat>, plies: seq<Ply>, trace': seq<nat>, plies': seq<Ply>, k: nat, tree: Tree, tree': Tree)
    requires WellFormed(adj) && k <= |plies| <= |trace| && k <= |plies'| <= |trace'|
    requires TreeHandedOn(adj, search, trace, plies, k, tree) && TreeHandedOn(adj, search, trace', plies', k, tree')
    requires trace[..k] == trace'[..k] && (k > 0 ==> plies[k - 1] == plies'[k - 1])
    ensures tree == tree'
  {
    hide Replayed, SessionAfter, WellFormed;
    if k > 0 {
      assert trace[..k][k - 1] == trace[k - 1] && trace'[..k][k - 1] == trace'[k - 1];
      assert trace[..k][..k - 1] == trace[..k - 1] && trace'[..k][..k - 1] == trace'[..k - 1];
    }
  }

  /** The evaluations decide the game: two games given the same, ply by ply, made the same moves with the same masks. */
  lemma {:induction false} EvaluationsDecide(adj: Adjacency, search: Search, positions: seq<Position>, trace: seq<nat>, plies: seq<Ply>, tree: Tree,
                                             positions': seq<Position>, trace': seq<nat>, plies': seq<Ply>, tree': Tree, k: nat)
    requires Searched(adj, search, positions, trace, plies, tree) && Searched(adj, search, positions', trace', plies', tree')
    requires k <= |plies| && k <= |plies'| && forall i :: 0 <= i < k ==> plies[i].given == plies'[i].given
    ensures trace[..k] == trace'[..k] && forall i :: 0 <= i < k ==> positions[i].mask == positions'[i].mask && plies[i] == plies'[i]
  {
    hide PlySearched, TreeHandedOn, WellFormed;
    if k > 0 {
      var last := k - 1;
      EvaluationsDecide(adj, search, positions, trace, plies, tree, positions', trace', plies', tree', last);
      SameTree(adj, search, trace, plies, trace', plies', last, plies[last].tree, plies'[last].tree);
      SamePly(adj, search, positions, trace, plies, positions', trace', plies', last);
      assert trace[..k] == trace[..last] + [trace[last]] && trace'[..k] == trace'[..last] + [trace'[last]];
    }
  }

  /** Evaluations of all finished plies, in order. */
  ghost function GivenIn(plies: seq<Ply>): seq<Evaluation> {
    if plies == [] then [] else GivenIn(plies[..|plies| - 1]) + plies[|plies| - 1].given
  }

  lemma GivenInPush(plies: seq<Ply>, ply: Ply)
    ensures GivenIn(plies + [ply]) == GivenIn(plies) + ply.given
  {
    assert (plies + [ply])[..|plies|] == plies;
  }

  lemma GivenMore(search: Search, tree: Tree, state: State, context: Context, ply: nat, given: seq<Evaluation>, s: Session, evaluation: Evaluation)
    requires SessionAfter(search, tree, state, context, ply, given) == Some(s)
    ensures SessionAfter(search, tree, state, context, ply, given + [evaluation]) == search.give(s, evaluation)
  {
    assert (given + [evaluation])[..|given|] == given;
  }

  // ----- recorded positions -----

  /** Every action so far was accepted; each position carries its ply, its side and its action. */
  ghost predicate Recorded(adj: Adjacency, positions: seq<Position>, trace: seq<nat>, accepted: nat)
    requires WellFormed(adj)
  {
    && |positions| == |trace| && accepted <= |trace| <= accepted + 1
    && Replayed(adj, trace[..accepted]).Ok?
    && forall k :: 0 <= k < |trace| ==> RecordedAt(adj, positions, trace, k)
  }

  ghost predicate RecordedAt(adj: Adjacency, positions: seq<Position>, trace: seq<nat>, k: nat)
    requires WellFormed(adj) && |positions| == |trace| && k < |trace|
  {
    && positions[k].ply == k + 1 && positions[k].selected == trace[k] <= |adj|
    && Replayed(adj, trace[..k]).Ok? && !Replayed(adj, trace[..k]).value.Terminal() && positions[k].side == Replayed(adj, trace[..k]).value.side
  }

  /** The masks the search returned are the legal ones. */
  ghost predicate MasksLegal(adj: Adjacency, positions: seq<Position>, trace: seq<nat>)
    requires WellFormed(adj) && |positions| == |trace|
  {
    forall k :: 0 <= k < |trace| ==> Replayed(adj, trace[..k]).Ok? && IsLegalMask(adj, Replayed(adj, trace[..k]).value, positions[k].mask)
  }

  lemma RecordedPush(adj: Adjacency, positions: seq<Position>, trace: seq<nat>, s: State, mask: seq<bool>, index: nat)
    requires WellFormed(adj) && Recorded(adj, positions, trace, |trace|) && Replayed(adj, trace) == Ok(s) && !s.Terminal() && index <= |adj|
    ensures var (positions', trace') := (positions + [Position(|trace| + 1, s.side, mask, index)], trace + [index]);
      && Recorded(adj, positions', trace', |trace|)
      && (Replayed(adj, trace').Ok? ==> Recorded(adj, positions', trace', |trace'|))
      && (MasksLegal(adj, positions', trace') <==> MasksLegal(adj, positions, trace) && IsLegalMask(adj, s, mask))
  {
    hide Replayed, IsLegalMask;
    var positions', trace' := positions + [Position(|trace| + 1, s.side, mask, index)], trace + [index];
    assert trace'[..|trace|] == trace[..|trace|] == trace && trace'[..|trace'|] == trace';
    forall k | 0 <= k < |trace'| ensures RecordedAt(adj, positions', trace', k) {
      if k < |trace| {
        assert RecordedAt(adj, positions, trace, k) && trace'[..k] == trace[..k];
      }
    }
    assert forall k :: 0 <= k < |trace| ==> trace'[..k] == trace[..k] && positions'[k] == positions[k];
    if MasksLegal(adj, positions', trace') {
      assert IsLegalMask(adj, Replayed(adj, trace'[..|trace|]).value, positions'[|trace|].mask);
      forall k | 0 <= k < |trace| ensures Replayed(adj, trace[..k]).Ok? && IsLegalMask(adj, Replayed(adj, trace[..k]).value, positions[k].mask) {
        assert Replayed(adj, trace'[..k]).Ok? && IsLegalMask(adj, Replayed(adj, trace'[..k]).value, positions'[k].mask);
      }
    }
  }

  /** The first actions of the trace were accepted and led here. */
  ghost predicate Playing(adj: Adjacency, positions: seq<Position>, trace: seq<nat>, accepted: nat, state: State, context: Context)
    requires WellFormed(adj) && |positions| == |trace| && accepted <= |trace|
  {
    Recorded(adj, positions, trace, accepted) && Replayed(adj, trace[..accepted]) == Ok(state) && IsHistory(adj, trace[..accepted], context)
  }

  /** Recording an action: everything before it stays as it was, and it replays exactly when the rules accept it. */
  lemma RecordedNext(adj: Adjacency, positions: seq<Position>, trace: seq<nat>, state: State, context: Context, mask: seq<bool>, action: Action, index: nat)
    requires WellFormed(adj) && |positions| == |trace| && Shaped(adj, state) && !state.Terminal() && ActionIndex(|adj|, action) == Some(index)
    requires Playing(adj, positions, trace, |trace|, state, context)
    ensures var (positions', trace') := (positions + [Position(|trace| + 1, state.side, mask, index)], trace + [index]);
      && Playing(adj, positions', trace', |trace|, state, context)
      && (Replayed(adj, trace').Ok? <==> ApplyAction(adj, state, action).Ok?)
      && (MasksLegal(adj, positions', trace') <==> MasksLegal(adj, positions, trace) && IsLegalMask(adj, state, mask))
  {
    hide Replayed, ApplyAction, IsLegalMask, MasksLegal, IsHistory;
    assert trace[..|trace|] == trace && (trace + [index])[..|trace|] == trace;
    IndexRoundTrip(|adj|, index, action);
    RecordedPush(adj, positions, trace, state, mask, index);
    ReplayStep(adj, trace, index);
    assert ActionsOf(|adj|, [index])[0] == action;
  }

  /** Playing it: the context advances without a failure. */
  lemma PlayedNext(adj: Adjacency, positions: seq<Position>, trace: seq<nat>, state: State, context: Context, action: Action)
    requires WellFormed(adj) && |positions| == |trace| && trace != [] && Shaped(adj, state) && ActionIndex(|adj|, action) == Some(trace[|trace| - 1])
    requires Playing(adj, positions, trace, |trace| - 1, state, context) && ApplyAction(adj, state, action).Ok?
    ensures var after := ApplyAction(adj, state, action).value.after;
      && Shaped(adj, after) && AdvanceContext(|adj|, context, trace[|trace| - 1], after).Some?
      && Playing(adj, positions, trace, |trace|, after, AdvanceContext(|adj|, context, trace[|trace| - 1], after).value)
  {
    hide Replayed, ApplyAction, IsHistory, RecordedAt, AdvanceContext;
    var last := |trace| - 1;
    assert trace[..last] + [trace[last]] == trace && trace[..|trace|] == trace;
    IndexRoundTrip(|adj|, trace[last], action);
    ReplayStep(adj, trace[..last], trace[last]);
    assert ActionsOf(|adj|, [trace[last]])[0] == action;
    HistoryAdvances(adj, trace[..last], context, trace[last]);
    MoveShows(adj, state, action);
  }

  ghost predicate ScoreStored(score: GoldenScore, formal: Option<Winner>, ownership: seq<Ownership>, blackArea: Option<nat>, whiteArea: Option<nat>,
                              neutralPoints: Option<nat>, margin: Option<real>) {
    && ownership == score.ownership && blackArea == Some(score.blackArea) && whiteArea == Some(score.whiteArea)
    && neutralPoints == Some(score.neutralPoints) && margin == Some(score.marginBlack)
    && formal == Some(WinnerBy(score.marginBlack))
  }

  function WinnerBy(marginBlack: real): Winner {
    if marginBlack > 0.0 then BlackWins else if marginBlack < 0.0 then WhiteWins else Draw
  }

  // ----- the game -----

  datatype Progress = Unfinished | Ended(completion: Completion)

  datatype Advanced = InferenceNeed(payload: Payload) | GameFinished(record: Record) | RecordRefused

  class CooperativeGame {
    const adj: Adjacency
    const komi: real
    const limit: nat
    const search: Search
    var state: State
    var context: Context
    var positions: seq<Position>
    var trace: seq<nat>
    var progress: Progress
    var formal: Option<Winner>
    var technical: bool
    var ownership: seq<Ownership>
    var blackArea: Option<nat>
    var whiteArea: Option<nat>
    var neutralPoints: Option<nat>
    var margin: Option<real>
    var session: Option<Session>
    var tree: Tree
    /** How each accepted action came about, and what the search under way was given so far. */
    ghost var plies: seq<Ply>
    ghost var given: seq<Evaluation>

    /** Every search is started on the position, the history and the tree the game is at, and is what its evaluations
        made of it. */
    ghost predicate Conversed()
      reads this
    {
      && Searched(adj, search, positions, trace, plies, tree)
      && (progress.Unfinished? ==> |plies| == |trace| && (session.None? ==> given == []))
      && (session.Some? ==> SessionAfter(search, tree, state, context, |plies| + 1, given) == session)
    }

    /** All evaluations the game took, in order. */
    ghost function AllGiven(): seq<Evaluation>
      reads this
    {
      GivenIn(plies) + given
    }

    /** How many actions of the trace the rules accepted: all of them, except after a refused last one. */
    ghost predicate Accepted(accepted: nat)
      reads this
    {
      && WellFormed(adj) && |positions| == |trace| && accepted <= |trace| <= limit && Shaped(adj, state)
      && Playing(adj, positions, trace, accepted, state, context)
    }

    ghost predicate NoScore()
      reads this
    {
      formal.None? && ownership == [] && blackArea.None? && whiteArea.None? && neutralPoints.None? && margin.None?
    }

    /** The score fields are those of the final position. */
    ghost predicate Scored()
      reads this
      requires |state.stones| == |adj|
    {
      ScoreStored(Score(adj, state.stones, komi), formal, ownership, blackArea, whiteArea, neutralPoints, margin)
    }

    /** A formal game whose record was refused, marked technical after its score had been stored. */
    ghost predicate Remarked()
      reads this
    {
      Accepted(|trace|) && state.Terminal() && |state.stones| == |adj| && Scored() && !MasksLegal(adj, positions, trace)
    }

    ghost predicate Valid()
      reads this
    {
      && Conversed()
      && match progress
      case Unfinished => Accepted(|trace|) && !state.Terminal() && NoScore() && !technical && (session.Some? ==> |trace| < limit && SearchOf(search, state, session.value))
      case Ended(DoublePass) => Accepted(|trace|) && state.Terminal() && |state.stones| == |adj| && Scored() && !technical
      case Ended(MoveLimit) => Accepted(|trace|) && !state.Terminal() && NoScore() && technical && |trace| == limit
      case Ended(WorkerError) => technical && (Remarked() || ((Accepted(|trace|) || (trace != [] && Accepted(|trace| - 1) && Replayed(adj, trace).Rejected?)) && !state.Terminal() && NoScore()))
    }

    /** Everything the search returned so far was lawful. */
    ghost predicate Straight()
      reads this
      requires Valid()
    {
      Accepted(|trace|) && MasksLegal(adj, positions, trace)
    }

    constructor (adj: Adjacency, komi: real, limit: nat, search: Search)
      requires WellFormed(adj)
      ensures Valid() && Straight() && progress.Unfinished? && trace == [] && this.adj == adj && this.komi == komi && this.limit == limit && this.search == search
      ensures AllGiven() == []
    {
      this.adj, this.komi, this.limit, this.search := adj, komi, limit, search;
      state, context := Initial(adj), InitialContext(|adj|);
      positions, trace, progress, technical, session, tree := [], [], Unfinished, false, None, search.empty;
      formal, ownership, blackArea, whiteArea, neutralPoints, margin := None, [], None, None, None, None;
      plies, given := [], [];
      new;
      ReplayStep(adj, [], 0);
      StartHistory(adj);
      assert trace[..0] == [];
      assert Replayed(adj, []) == Ok(state);
    }

    function RecordNow(completion: Completion): Record
      reads this
    {
      Record(positions, trace, completion, formal, technical, ownership, blackArea, whiteArea, neutralPoints, margin)
    }

    /** Builds the record and checks it without replay; a record that fails the check is not returned. */
    method Finish() returns (o: Advanced)
      requires Valid() && progress.Ended?
      ensures o == if ShallowOk(|adj|, RecordNow(progress.completion)) then GameFinished(RecordNow(progress.completion)) else RecordRefused
    {
      var record := RecordNow(progress.completion);
      if ShallowOk(|adj|, record) {
        return GameFinished(record);
      }
      return RecordRefused;
    }

    /** After an exception: the session is dropped and the game is technical. */
    method MarkWorkerError() returns (o: Advanced)
      requires Valid() && progress.Unfinished?
      modifies this`session, this`progress, this`technical
      ensures Valid() && progress == Ended(WorkerError) && (old(Straight()) ==> Straight())
      ensures o == if ShallowOk(|adj|, RecordNow(WorkerError)) then GameFinished(RecordNow(WorkerError)) else RecordRefused
    {
      hide Searched, SessionAfter, Playing, WellFormed, Score, Replayed, MasksLegal, ShallowOk;
      session, progress, technical := None, Ended(WorkerError), true;
      o := Finish();
    }

    /** Finishing inside the loop: a refused record counts as an error of the worker, is marked as such and built
        again, which cannot help it. */
    method FinishOrMark() returns (o: Advanced)
      requires Valid() && progress.Ended? && progress.completion != WorkerError && session.None?
      modifies this`progress, this`technical
      ensures Valid() && progress.Ended? && (old(Straight()) ==> Straight() && progress == old(progress))
      ensures o.GameFinished? <==> progress == old(progress)
      ensures o == if progress == old(progress) then GameFinished(RecordNow(progress.completion)) else RecordRefused
      ensures progress != old(progress) ==> progress == Ended(WorkerError) && technical && !Straight()
      ensures !ShallowOk(|adj|, RecordNow(progress.completion)) <==> o == RecordRefused
    {
      hide Searched, SessionAfter, Playing, WellFormed, Score, Replayed, MasksLegal, DeepOk;
      FinishedReplays();
      o := Finish();
      if o.RecordRefused? {
        progress, technical := Ended(WorkerError), true;
        o := Finish();
      }
    }

    method MarkMoveLimit() returns (o: Advanced)
      requires Valid() && progress.Unfinished? && session.None? && |trace| == limit
      modifies this`progress, this`technical
      ensures Valid() && progress in {Ended(MoveLimit), Ended(WorkerError)} && (old(Straight()) ==> Straight() && progress == Ended(MoveLimit))
      ensures o == if ShallowOk(|adj|, RecordNow(progress.completion)) then GameFinished(RecordNow(progress.completion)) else RecordRefused
      ensures progress == Ended(WorkerError) ==> o == RecordRefused && !Straight()
    {
      hide Searched, SessionAfter, Playing, WellFormed, Score, Replayed, MasksLegal, ShallowOk;
      progress, technical := Ended(MoveLimit), true;
      o := FinishOrMark();
    }

    /** Two passes: the final position is scored. */
    method MarkFormalTerminal()
      requires Accepted(|trace|) && Conversed() && state.Terminal() && !technical && progress.Unfinished?
      modifies this`progress, this`formal, this`ownership, this`blackArea, this`whiteArea, this`neutralPoints, this`margin
      ensures Valid() && progress == Ended(DoublePass) && (MasksLegal(adj, positions, trace) ==> Straight())
    {
      hide Searched, SessionAfter, Playing, WellFormed, Score, MasksLegal, WinnerBy, Remarked, NoScore;
      var outcome := ScoreTerminal(adj, state, komi);
      var score := outcome.score;
      progress := Ended(DoublePass);
      formal := Some(WinnerBy(score.marginBlack));
      ownership, blackArea, whiteArea := score.ownership, Some(score.blackArea), Some(score.whiteArea);
      neutralPoints, margin := Some(score.neutralPoints), Some(score.marginBlack);
    }

    /** The last action is recorded but not yet played. */
    ghost predicate Recording(mask: seq<bool>, action: Action)
      reads this
    {
      && trace != [] && Accepted(|trace| - 1) && Searched(adj, search, positions, trace, plies, tree) && |plies| == |trace| - 1
      && session.Some? && SessionAfter(search, tree, state, context, |trace|, given) == session
      && search.look(session.value) == Result(true, mask, action) && positions[|trace| - 1].mask == mask
      && ActionIndex(|adj|, action) == Some(trace[|trace| - 1]) && !state.Terminal() && NoScore() && !technical && progress.Unfinished? && session.Some?
      && (Replayed(adj, trace).Ok? <==> ApplyAction(adj, state, action).Ok?)
    }

    method RecordResult(mask: seq<bool>, action: Action, index: nat)
      requires Valid() && progress.Unfinished? && session.Some? && |trace| < limit && ActionIndex(|adj|, action) == Some(index)
      requires search.look(session.value) == Result(true, mask, action)
      modifies this`positions, this`trace
      ensures Recording(mask, action) && trace == old(trace) + [index]
      ensures positions == old(positions) + [Position(|old(trace)| + 1, state.side, mask, index)]
      ensures MasksLegal(adj, positions, trace) <==> old(MasksLegal(adj, positions, trace)) && IsLegalMask(adj, state, mask)
    {
      hide Searched, SessionAfter, Playing, WellFormed, Score, Replayed, MasksLegal, ApplyAction, IsLegalMask, Shaped, SearchOf;
      RecordedNext(adj, positions, trace, state, context, mask, action, index);
      var positions', trace' := positions + [Position(|trace| + 1, state.side, mask, index)], trace + [index];
      SearchedLonger(adj, search, positions, trace, plies, tree, positions', trace');
      positions, trace := positions', trace';
    }

    /** The recorded action is refused: the game is technical, and its trace ends with the refused action. */
    method RefuseRecorded(ghost mask: seq<bool>, action: Action) returns (o: Advanced)
      requires Recording(mask, action) && ApplyAction(adj, state, action).Rejected?
      modifies this`session, this`progress, this`technical
      ensures Valid() && !Straight() && progress == Ended(WorkerError)
      ensures o == if ShallowOk(|adj|, RecordNow(WorkerError)) then GameFinished(RecordNow(WorkerError)) else RecordRefused
    {
      hide Searched, SessionAfter, WellFormed, Score, Replayed, MasksLegal, ApplyAction, IsLegalMask, Shaped, ShallowOk, IsHistory;
      session, progress, technical := None, Ended(WorkerError), true;
      assert trace[..|trace|] == trace;
      o := Finish();
    }

    /** The recorded action is accepted: state, context and tree move on. */
    method AcceptRecorded(ghost mask: seq<bool>, action: Action, after: State)
      requires Recording(mask, action) && ApplyAction(adj, state, action).Ok? && after == ApplyAction(adj, state, action).value.after
      modifies this`state, this`context, this`tree, this`session, this`plies, this`given
      ensures Accepted(|trace|) && Conversed() && state == after && session.None? && NoScore() && !technical && progress.Unfinished?
      ensures AllGiven() == old(AllGiven())
    {
      hide Searched, SessionAfter, WellFormed, Score, Replayed, MasksLegal, ApplyAction, IsLegalMask, Shaped, AdvanceContext;
      PlayedNext(adj, positions, trace, state, context, action);
      PlayedSearched(adj, positions, trace, state, context);
      SearchedPush(adj, search, positions, trace, plies, Ply(tree, context, given), session.value, action);
      GivenInPush(plies, Ply(tree, context, given));
      assert GivenIn(plies + [Ply(tree, context, given)]) + [] == GivenIn(plies) + given;
      plies, given := plies + [Ply(tree, context, given)], [];
      var advanced := AdvanceContext(|adj|, context, trace[|trace| - 1], after);
      state, context := after, advanced.value;
      tree := search.rest(session.value, action);
      session := None;
    }

    lemma PlayedSearched(adj: Adjacency, positions: seq<Position>, trace: seq<nat>, state: State, context: Context)
      requires WellFormed(adj) && |positions| == |trace| && trace != [] && Playing(adj, positions, trace, |trace| - 1, state, context)
      ensures Replayed(adj, trace[..|trace| - 1]) == Ok(state) && IsHistory(adj, trace[..|trace| - 1], context)
    {
      hide Replayed, IsHistory, Recorded;
    }

    /** After an accepted action: two passes end the game formally even on the last allowed ply, otherwise the limit
        ends it. */
    method Conclude() returns (o: Option<Advanced>)
      requires Accepted(|trace|) && Conversed() && session.None? && NoScore() && !technical && progress.Unfinished?
      modifies this`progress, this`technical, this`formal, this`ownership, this`blackArea, this`whiteArea, this`neutralPoints, this`margin
      ensures Valid() && (progress.Unfinished? <==> o.None?)
      ensures progress.Unfinished? ==> |trace| < limit
      ensures o.Some? ==> progress.Ended? && o.value == if ShallowOk(|adj|, RecordNow(progress.completion)) then GameFinished(RecordNow(progress.completion)) else RecordRefused
      ensures state.Terminal() ==> progress == Ended(DoublePass) || (o == Some(RecordRefused) && progress == Ended(WorkerError) && Scored())
      ensures MasksLegal(adj, positions, trace) ==> Straight() && progress != Ended(WorkerError)
    {
      hide Searched, SessionAfter, Playing, WellFormed, Score, Replayed, MasksLegal, Shaped, ShallowOk;
      if state.Terminal() {
        MarkFormalTerminal();
        var ended := FinishOrMark();
        return Some(ended);
      }
      if |trace| >= limit {
        var ended := MarkMoveLimit();
        return Some(ended);
      }
      return None;
    }

    /** One search result: recorded first, then played. Something outside the action space ends the game before it
        is recorded, an illegal action after. Two passes end the game formally even on the last allowed ply. */
    method PlayResult(mask: seq<bool>, action: Action) returns (o: Option<Advanced>)
      requires Valid() && progress.Unfinished? && session.Some? && |trace| < limit && search.look(session.value) == Result(true, mask, action)
      modifies this
      ensures Valid() && (progress.Unfinished? <==> o.None?) && AllGiven() == old(AllGiven())
      ensures progress.Unfinished? ==> session.None? && |trace| == |old(trace)| + 1 < limit
      ensures o.Some? ==> progress.Ended? && o.value == if ShallowOk(|adj|, RecordNow(progress.completion)) then GameFinished(RecordNow(progress.completion)) else RecordRefused
      ensures old(Straight()) && Lawful(adj, old(state), mask, action) ==> Straight() && progress != Ended(WorkerError)
      ensures ActionIndex(|adj|, action).Some? && ApplyAction(adj, old(state), action).Ok? && ApplyAction(adj, old(state), action).value.after.Terminal() ==>
                progress == Ended(DoublePass) || (o == Some(RecordRefused) && progress == Ended(WorkerError) && Scored())
      ensures progress == Ended(DoublePass) || progress == Ended(MoveLimit) ==> (Straight() <==> old(Straight()) && IsLegalMask(adj, old(state), mask))
    {
      hide Searched, SessionAfter, Playing, WellFormed, Score, Replayed, MasksLegal, ApplyAction, IsLegalMask, Shaped, ShallowOk, GivenIn, SearchOf, IsHistory, ScoreStored, NoScore, TreeHandedOn;
      var index := ActionIndex(|adj|, action);
      if index.None? {
        var ended := MarkWorkerError();
        return Some(ended);
      }
      RecordResult(mask, action, index.value);
      var applied := Apply(adj, state, action);
      if applied.Rejected? {
        var ended := RefuseRecorded(mask, action);
        return Some(ended);
      }
      AcceptRecorded(mask, action, applied.value.after);
      o := Conclude();
    }

    /** A finished game replays exactly when the search was lawful throughout, and then the shallow check passes too. */
    lemma FinishedReplays()
      requires Valid() && progress.Ended?
      ensures DeepOk(adj, RecordNow(progress.completion)) <==> Straight()
      ensures Straight() ==> ShallowOk(|adj|, RecordNow(progress.completion))
    {
      hide Replayed, IsLegalMask, Score;
      var r := RecordNow(progress.completion);
      assert trace[..|trace|] == trace;
      if Accepted(|trace|) {
        forall k: nat | k < |trace| ensures RecordedAt(adj, positions, trace, k) && Shaped(adj, Replayed(adj, trace[..k]).value)
                                            && (PositionReplays(adj, r, k) <==> IsLegalMask(adj, Replayed(adj, trace[..k]).value, positions[k].mask)) {
          assert RecordedAt(adj, positions, trace, k);
          PlayedIsMasked(adj, positions, trace, k);
        }
        MasksDecide(adj, r);
        if progress.completion == DoublePass {
          TerminalByTwoPasses(adj, trace);
          ScoreShape(adj, state.stones, komi);
        }
        if MasksLegal(adj, positions, trace) {
          StraightIsShallow(adj, r);
        }
      }
    }

    /** The record handed out when the game is over. */
    ghost predicate HandsOut(o: Advanced)
      requires Valid()
      reads this
    {
      && progress.Ended?
      && o == (if ShallowOk(|adj|, RecordNow(progress.completion)) then GameFinished(RecordNow(progress.completion)) else RecordRefused)
      && (DeepOk(adj, RecordNow(progress.completion)) <==> Straight()) && (Straight() ==> o.GameFinished?)
    }

    /** Starts the search of the next ply, unless the limit is reached or the start raises. */
    method Begin() returns (o: Option<Advanced>)
      requires Valid() && progress.Unfinished? && session.None?
      modifies this`session, this`progress, this`technical
      ensures Valid() && (old(Straight()) ==> Straight())
      ensures o.None? ==> progress.Unfinished? && |trace| < limit && session == search.start(tree, state, context, |trace| + 1) && session.Some?
      ensures o.Some? ==> HandsOut(o.value)
      ensures old(Straight()) && o.Some? && progress == Ended(WorkerError) ==> search.start(tree, state, context, |trace| + 1).None?
    {
      hide Playing, Searched, Score, WellFormed, Shaped, SearchOf, MasksLegal, SessionAfter, DeepOk, ShallowOk;
      if |trace| >= limit {
        ValidWithin();
        var ended := MarkMoveLimit();
        FinishedReplays();
        return Some(ended);
      }
      var started := search.start(tree, state, context, |trace| + 1);
      if started.None? {
        var ended := MarkWorkerError();
        FinishedReplays();
        return Some(ended);
      }
      BeginSession(started.value);
      return None;
    }

    /** What a session shows that waits for nothing: a result to play, or an error of the search. */
    method Play() returns (o: Option<Advanced>)
      requires Valid() && progress.Unfinished? && session.Some? && !search.look(session.value).Request?
      modifies this
      ensures Valid() && AllGiven() == old(AllGiven())
      ensures o.None? ==> progress.Unfinished? && session.None? && |trace| == |old(trace)| + 1 < limit
      ensures o.Some? ==> HandsOut(o.value)
      ensures Honest(adj, search) && old(Straight()) ==> Straight()
      ensures Honest(adj, search) && old(Straight()) && progress == Ended(WorkerError) ==>
                var shown := search.look(old(session).value); shown.Malformed? || (shown.Result? && !shown.visitsMatch)
    {
      hide Playing, Searched, Score, WellFormed, Shaped, SearchOf, MasksLegal, SessionAfter, GivenIn, DeepOk, ShallowOk, Honest, Lawful, ApplyAction, Accepted, Scored;
      ValidWithin();
      match search.look(session.value) {
        case Result(visitsMatch, mask, action) =>
          if visitsMatch {
            HonestResult(adj, search, state, session.value);
            o := PlayResult(mask, action);
            if o.Some? {
              FinishedReplays();
            }
            return;
          }
        case _ =>
      }
      var ended := MarkWorkerError();
      FinishedReplays();
      return Some(ended);
    }

    /** Runs until the next evaluation is needed or the game is over. Given an honest search, every record handed
        out passes deep replay, and only a failing search makes a worker error; the trace never exceeds the limit. */
    method Advance() returns (o: Advanced)
      requires Valid()
      modifies this
      ensures Valid() && |trace| <= limit && AllGiven() == old(AllGiven())
      ensures o.InferenceNeed? ==> progress.Unfinished? && session.Some? && search.look(session.value) == Request(o.payload)
      ensures old(session).Some? && old(progress).Unfinished? && search.look(old(session).value).Request? ==> o.InferenceNeed? && unchanged(this)
      ensures !o.InferenceNeed? ==> HandsOut(o)
      ensures Honest(adj, search) && old(Straight()) ==> Straight() && !o.RecordRefused?
      ensures Honest(adj, search) && Steady(search) && old(Straight()) && old(progress).Unfinished? ==> progress != Ended(WorkerError)
    {
      hide Playing, Searched, Score, WellFormed, Shaped, SearchOf, MasksLegal, SessionAfter, GivenIn, DeepOk, ShallowOk, Honest, Accepted, Scored, NoScore;
      ValidWithin();
      if progress.Ended? {
        FinishedReplays();
        o := Finish();
        return;
      }
      while true
        invariant Valid() && progress.Unfinished? && (Honest(adj, search) && old(Straight()) ==> Straight())
        invariant AllGiven() == old(AllGiven())
        invariant old(session).Some? && search.look(old(session).value).Request? ==> unchanged(this)
        decreases limit - |trace|
      {
        ValidWithin();
        if session.None? {
          var begun := Begin();
          ValidWithin();
          if begun.Some? {
            return begun.value;
          }
        }
        var shown := search.look(session.value);
        if shown.Request? {
          return InferenceNeed(shown.payload);
        }
        var played := Play();
        ValidWithin();
        if played.Some? {
          return played.value;
        }
      }
    }

    lemma ValidWithin()
      requires Valid()
      ensures |trace| <= limit && WellFormed(adj)
      ensures progress.Unfinished? ==> Shaped(adj, state) && (session.Some? ==> |trace| < limit && SearchOf(search, state, session.value))
    {
      hide Playing, Searched, SessionAfter, Score;
    }

    method BeginSession(s: Session)
      requires Valid() && progress.Unfinished? && session.None? && |trace| < limit && search.start(tree, state, context, |trace| + 1) == Some(s)
      modifies this`session
      ensures Valid() && session == Some(s) && (old(Straight()) ==> Straight())
    {
      hide Playing, Searched, Score, WellFormed, Shaped, SearchOf, MasksLegal;
      StartedIsSearch(search, tree, state, context, |trace| + 1);
      session := Some(s);
    }

    /** Hands the evaluation to the session; without a session the call is refused, and a finished game ignores it. */
    method Resume(evaluation: Evaluation) returns (accepted: bool)
      requires Valid()
      modifies this`session, this`progress, this`technical, this`given
      ensures Valid() && (old(Straight()) ==> Straight())
      ensures accepted <==> old(progress).Ended? || old(session).Some?
      ensures old(progress).Ended? || old(session).None? ==> unchanged(this)
      ensures old(progress).Unfinished? && old(session).Some? ==>
                && AllGiven() == old(AllGiven()) + [evaluation]
                && (progress == Ended(WorkerError) <==> search.give(old(session).value, evaluation).None?)
                && (search.give(old(session).value, evaluation).Some? ==> progress.Unfinished? && session == search.give(old(session).value, evaluation))
    {
      hide Playing, Searched, Score, WellFormed, Shaped, SearchOf, MasksLegal, SessionAfter, GivenIn, ShallowOk;
      if progress.Ended? {
        return true;
      }
      if session.None? {
        return false;
      }
      var next := search.give(session.value, evaluation);
      GivenMore(search, tree, state, context, |plies| + 1, given, session.value, evaluation);
      assert GivenIn(plies) + (given + [evaluation]) == (GivenIn(plies) + given) + [evaluation];
      if next.None? {
        given := given + [evaluation];
        session, progress, technical := None, Ended(WorkerError), true;
      } else {
        GivenIsSearch(search, state, session.value, evaluation);
        given := given + [evaluation];
        session := next;
      }
      accepted := true;
    }

    /** A whole conversation: the game is advanced, asked, and handed the next evaluation, for as long as there are
        evaluations. None is lost, none is used twice, and each answers the request that its session shows. */
    method Converse(evaluations: seq<Evaluation>) returns (asked: seq<Payload>)
      requires Valid()
      modifies this
      ensures Valid() && |asked| <= |evaluations| && AllGiven() == old(AllGiven()) + evaluations[..|asked|]
      ensures |asked| < |evaluations| ==> progress.Ended?
      ensures Honest(adj, search) && old(Straight()) ==> Straight()
    {
      hide Playing, Searched, Score, WellFormed, Shaped, SearchOf, MasksLegal, SessionAfter, GivenIn, ShallowOk, Honest, Accepted, DeepOk;
      asked := [];
      while |asked| < |evaluations|
        invariant Valid() && |asked| <= |evaluations| && AllGiven() == old(AllGiven()) + evaluations[..|asked|]
        invariant Honest(adj, search) && old(Straight()) ==> Straight()
      {
        var o := Advance();
        if !o.InferenceNeed? {
          return;
        }
        var k := |asked|;
        assert evaluations[..k + 1] == evaluations[..k] + [evaluations[k]];
        asked := asked + [o.payload];
        var accepted := Resume(evaluations[k]);
      }
    }
  }

  lemma ScoreShape(adj: Adjacency, b: Board, komi: real)
    ensures |Score(adj, b, komi).ownership| == |b|
  {
  }

  lemma HonestResult(adj: Adjacency, search: Search, state: State, s: Session)
    requires Shaped(adj, state) && SearchOf(search, state, s) && search.look(s).Result?
    ensures Honest(adj, search) ==> Lawful(adj, state, search.look(s).mask, search.look(s).action)
  {
    hide SearchOf, Lawful;
  }

  /** A recorded action that was played is one the legal mask allows. */
  lemma PlayedIsMasked(adj: Adjacency, positions: seq<Position>, trace: seq<nat>, k: nat)
    requires WellFormed(adj) && |positions| == |trace| && k < |trace| && RecordedAt(adj, positions, trace, k) && Replayed(adj, trace).Ok?
    ensures IsLegalMask(adj, Replayed(adj, trace[..k]).value, positions[k].mask) ==> positions[k].mask[trace[k]]
  {
    hide Replayed, IsLegalMask, ApplyAction;
    PrefixReplays(adj, trace, k + 1);
    assert trace[..k] + [trace[k]] == trace[..k + 1];
    ReplayStep(adj, trace[..k], trace[k]);
    var s := Replayed(adj, trace[..k]).value;
    if IsLegalMask(adj, s, positions[k].mask) {
      MaskedIsLegal(adj, s, positions[k].mask, trace[k]);
      MaskSize(adj, s, positions[k].mask);
    }
  }

  lemma MaskSize(adj: Adjacency, s: State, mask: seq<bool>)
    requires Shaped(adj, s) && IsLegalMask(adj, s, mask)
    ensures |mask| == |adj| + 1
  {
  }

  lemma MasksDecide(adj: Adjacency, r: Record)
    requires WellFormed(adj) && |r.positions| == |r.trace|
    requires forall k: nat :: k < |r.trace| ==> Replayed(adj, r.trace[..k]).Ok?
    requires forall k: nat :: k < |r.trace| ==>
               (PositionReplays(adj, r, k) <==> IsLegalMask(adj, Replayed(adj, r.trace[..k]).value, r.positions[k].mask))
    ensures MasksLegal(adj, r.positions, r.trace) <==> forall k :: 0 <= k < |r.trace| ==> PositionReplays(adj, r, k)
  {
    hide Replayed, IsLegalMask, PositionReplays;
  }

  lemma StraightIsShallow(adj: Adjacency, r: Record)
    requires WellFormed(adj) && Recorded(adj, r.positions, r.trace, |r.trace|) && MasksLegal(adj, r.positions, r.trace)
    requires (r.completion == DoublePass <==> r.formal.Some?) && (r.formal.Some? ==> !r.technical)
    requires forall k :: 0 <= k < |r.trace| ==> PositionReplays(adj, r, k)
    ensures ShallowOk(|adj|, r)
  {
    hide Replayed;
    forall k | 0 <= k < |r.positions| ensures PositionOk(|adj|, r.positions[k]) && r.trace[k] <= |adj| {
      assert RecordedAt(adj, r.positions, r.trace, k) && PositionReplays(adj, r, k);
    }
  }

  /** A replay ends the game only with two passes at the end of the trace. */
  lemma TerminalByTwoPasses(adj: Adjacency, trace: seq<nat>)
    requires WellFormed(adj) && Replayed(adj, trace).Ok?
    ensures Replayed(adj, trace).value.passes == 0 || (trace != [] && trace[|trace| - 1] == |adj|)
    ensures Replayed(adj, trace).value.Terminal() ==> |trace| >= 2 && trace[|trace| - 2..] == [|adj|, |adj|]
  {
    hide Replayed, ProbePoint;
    ReplayStep(adj, [], 0);
    if trace != [] {
      var last := |trace| - 1;
      assert trace[..last] + [trace[last]] == trace;
      PrefixReplays(adj, trace, last);
      ReplayStep(adj, trace[..last], trace[last]);
      if last > 0 {
        var front := trace[..last];
        assert front[..last - 1] + [front[last - 1]] == front;
        PrefixReplays(adj, front, last - 1);
        ReplayStep(adj, front[..last - 1], front[last - 1]);
      } else {
        assert trace[..last] == [];
      }
    }
  }
}
