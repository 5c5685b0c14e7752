/** Replaying a recorded game: action indices, the bounded board history, and what a record must satisfy. */
module GameReplay {
  import opened Options
  import opened Topology
  import opened GoRules
  import opened GoInvariants
  import opened GoEngine
  import opened Scoring

  // ----- action indices: points first, PASS last -----

  function RulesAction(points: nat, index: nat): Option<Action> {
    if index > points then None else if index == points then Some(Pass) else Some(PointId(index))
  }

  function ActionIndex(points: nat, action: Action): Option<nat> {
    match action
    case Pass => Some(points)
    case PointId(id) => if 0 <= id < points then Some(id) else None
    case NotAnAction => None
  }

  /** The two mappings are inverse to each other, and refuse exactly what the other never produces. */
  lemma IndexRoundTrip(points: nat, index: nat, action: Action)
    ensures RulesAction(points, index).Some? <==> index <= points
    ensures RulesAction(points, index).Some? ==> ActionIndex(points, RulesAction(points, index).value) == Some(index)
    ensures ActionIndex(points, action).Some? ==> RulesAction(points, ActionIndex(points, action).value) == Some(action)
    ensures ActionIndex(points, action).Some? <==> action == Pass || (action.PointId? && 0 <= action.id < points)
  {
  }

  // ----- replay of a trace -----

  function ActionsOf(points: nat, trace: seq<nat>): seq<Action> {
    seq(|trace|, i requires 0 <= i < |trace| => match RulesAction(points, trace[i]) case Some(a) => a case None => NotAnAction)
  }

  /** The state after a trace from the empty board, if every action of it is legal. */
  ghost function Replayed(adj: Adjacency, trace: seq<nat>): (r: Outcome<State>)
    requires WellFormed(adj)
    ensures r.Ok? ==> Shaped(adj, r.value)
  {
    Play(adj, Initial(adj), ActionsOf(|adj|, trace))
  }

  lemma ReplayStep(adj: Adjacency, trace: seq<nat>, index: nat)
    requires WellFormed(adj)
    ensures Replayed(adj, []) == Ok(Initial(adj))
    ensures Replayed(adj, trace + [index]) ==
            match Replayed(adj, trace)
            case Rejected(reason) => Rejected(reason)
            case Ok(s) =>
              match ApplyAction(adj, s, ActionsOf(|adj|, [index])[0])
              case Rejected(reason) => Rejected(reason)
              case Ok(t) => Ok(t.after)
  {
    var actions, longer := ActionsOf(|adj|, trace), ActionsOf(|adj|, trace + [index]);
    assert longer[..|trace|] == actions;
  }

  /** A replay that goes through goes through at every prefix. */
  lemma {:induction false} PrefixReplays(adj: Adjacency, trace: seq<nat>, k: nat)
    requires WellFormed(adj) && k <= |trace| && Replayed(adj, trace).Ok?
    ensures Replayed(adj, trace[..k]).Ok?
    ensures k < |trace| ==> !Replayed(adj, trace[..k]).value.Terminal()
    decreases |trace|
  {
    if k < |trace| {
      var last := |trace| - 1;
      ReplayStep(adj, trace[..last], trace[last]);
      assert trace[..last] + [trace[last]] == trace;
      if k < last {
        PrefixReplays(adj, trace[..last], k);
        assert trace[..last][..k] == trace[..k];
      }
    } else {
      assert trace[..k] == trace;
    }
  }

  // ----- the bounded board history -----

  const HISTORY_DEPTH := 4

  datatype Context = Context(current: Board, previous: seq<Board>, action: Option<nat>)

  function InitialContext(points: nat): Context {
    Context(EmptyBoard(points), seq(HISTORY_DEPTH, _ => EmptyBoard(points)), None)
  }

  /** One real move: the checks against the resulting state, then the boards shift by one. */
  function AdvanceContext(points: nat, c: Context, index: nat, after: State): Option<Context> {
    if index > points || |c.current| != points || |after.stones| != points || after.side == Empty || |c.previous| != HISTORY_DEPTH then None
    else if index == points && after.stones != c.current then None
    else if index < points && (c.current[index] != Empty || after.stones[index] != Opponent(after.side)) then None
    else Some(Context(after.stones, [c.current] + c.previous[..HISTORY_DEPTH - 1], Some(index)))
  }

  /** The board after the first k actions; the empty board before the game. */
  ghost function BoardAt(adj: Adjacency, trace: seq<nat>, k: int): Board
    requires WellFormed(adj)
  {
    if 0 <= k <= |trace| && Replayed(adj, trace[..k]).Ok? then Replayed(adj, trace[..k]).value.stones else EmptyBoard(|adj|)
  }

  /** The context of a trace in closed form: the current board, the four boards before it, the last action. */
  ghost predicate IsHistory(adj: Adjacency, trace: seq<nat>, c: Context)
    requires WellFormed(adj)
  {
    && c.current == BoardAt(adj, trace, |trace|)
    && |c.previous| == HISTORY_DEPTH
    && (forall j :: 0 <= j < HISTORY_DEPTH ==> c.previous[j] == BoardAt(adj, trace, |trace| - 1 - j))
    && c.action == if trace == [] then None else Some(trace[|trace| - 1])
  }

  lemma StartHistory(adj: Adjacency)
    requires WellFormed(adj)
    ensures IsHistory(adj, [], InitialContext(|adj|))
  {
    ReplayStep(adj, [], 0);
  }

  /** A legal move changes nothing on a pass, and on a point puts a stone of the mover where none was. */
  lemma MoveShows(adj: Adjacency, s: State, action: Action)
    requires Shaped(adj, s) && ApplyAction(adj, s, action).Ok?
    ensures var t := ApplyAction(adj, s, action).value.after;
      && Shaped(adj, t) && t.side == Opponent(s.side)
      && (action == Pass ==> t.stones == s.stones)
      && (action.PointId? ==> 0 <= action.id < |adj| && s.stones[action.id] == Empty && t.stones[action.id] == s.side)
  {
    hide Dead;
  }

  /** Advancing the context along a legal move never fails and keeps it the history of the trace. */
  lemma HistoryAdvances(adj: Adjacency, trace: seq<nat>, c: Context, index: nat)
    requires WellFormed(adj) && Replayed(adj, trace).Ok? && Replayed(adj, trace + [index]).Ok? && IsHistory(adj, trace, c)
    ensures AdvanceContext(|adj|, c, index, Replayed(adj, trace + [index]).value).Some?
    ensures IsHistory(adj, trace + [index], AdvanceContext(|adj|, c, index, Replayed(adj, trace + [index]).value).value)
  {
    hide Replayed, ApplyAction;
    ReplayStep(adj, trace, index);
    var s, t := Replayed(adj, trace).value, Replayed(adj, trace + [index]).value;
    var longer := trace + [index];
    assert trace[..|trace|] == trace && longer[..|longer|] == longer;
    MoveShows(adj, s, ActionsOf(|adj|, [index])[0]);
    IndexInRange(adj, s, index);
    assert c.current == s.stones;
    var c' := AdvanceContext(|adj|, c, index, t).value;
    forall j | 0 <= j < HISTORY_DEPTH ensures c'.previous[j] == BoardAt(adj, longer, |longer| - 1 - j) {
      SameBoardAt(adj, trace, index, |trace| - j);
    }
  }

  lemma IndexInRange(adj: Adjacency, s: State, index: nat)
    requires Shaped(adj, s) && ApplyAction(adj, s, ActionsOf(|adj|, [index])[0]).Ok?
    ensures index <= |adj|
  {
  }

  lemma SameBoardAt(adj: Adjacency, trace: seq<nat>, index: nat, k: int)
    requires WellFormed(adj) && k <= |trace|
    ensures BoardAt(adj, trace + [index], k) == BoardAt(adj, trace, k)
  {
    hide Replayed;
    if k >= 0 {
      assert (trace + [index])[..k] == trace[..k];
    }
  }

  // ----- records -----

  datatype Position = Position(ply: nat, side: Stone, mask: seq<bool>, selected: nat)

  datatype Completion = DoublePass | MoveLimit | WorkerError

  datatype Winner = BlackWins | WhiteWins | Draw

  datatype Record = Record(
    positions: seq<Position>, trace: seq<nat>, completion: Completion, formal: Option<Winner>, technical: bool,
    ownership: seq<Ownership>, blackArea: Option<nat>, whiteArea: Option<nat>, neutralPoints: Option<nat>, margin: Option<real>)

  /** The checks made on every record without replay. */
  predicate ShallowOk(points: nat, r: Record) {
    && |r.positions| == |r.trace|
    && (forall k :: 0 <= k < |r.positions| ==> PositionOk(points, r.positions[k]))
    && (forall k :: 0 <= k < |r.trace| ==> r.trace[k] <= points)
    && (r.completion == DoublePass <==> r.formal.Some?)
    && (r.formal.Some? ==> !r.technical)
  }

  predicate PositionOk(points: nat, p: Position) {
    p.ply > 0 && p.side != Empty && |p.mask| == points + 1 && p.selected <= points && p.mask[p.selected]
  }

  /** A position as the replay has it. */
  ghost predicate PositionReplays(adj: Adjacency, r: Record, k: nat)
    requires WellFormed(adj) && |r.positions| == |r.trace| && k < |r.trace|
  {
    && Replayed(adj, r.trace[..k]).Ok?
    && var s := Replayed(adj, r.trace[..k]).value;
       && !s.Terminal() && r.positions[k].side == s.side && IsLegalMask(adj, s, r.positions[k].mask)
       && r.positions[k].selected == r.trace[k] <= |adj| && r.positions[k].mask[r.trace[k]]
  }

  /** How the record must end, given the replayed final state. */
  predicate EndingOk(points: nat, r: Record, s: State) {
    if r.completion == DoublePass then
      && s.Terminal() && |r.trace| >= 2 && r.trace[|r.trace| - 2..] == [points, points]
      && r.formal.Some? && |r.ownership| == points && r.blackArea.Some? && r.whiteArea.Some? && r.neutralPoints.Some? && r.margin.Some?
    else
      !s.Terminal() && r.ownership == [] && r.blackArea.None? && r.whiteArea.None? && r.neutralPoints.None? && r.margin.None?
  }

  /** What deep validation accepts. */
  ghost predicate DeepOk(adj: Adjacency, r: Record)
    requires WellFormed(adj) && |r.positions| == |r.trace|
  {
    && (forall k :: 0 <= k < |r.trace| ==> PositionReplays(adj, r, k))
    && Replayed(adj, r.trace).Ok? && EndingOk(|adj|, r, Replayed(adj, r.trace).value)
  }

  /** A legal action is one whose mask entry is set. */
  lemma MaskedIsLegal(adj: Adjacency, s: State, mask: seq<bool>, index: nat)
    requires Shaped(adj, s) && IsLegalMask(adj, s, mask) && index <= |adj|
    ensures mask[index] <==> ApplyAction(adj, s, ActionsOf(|adj|, [index])[0]).Ok?
  {
    hide ProbePoint;
  }

  /** Deep validation replays the record with the rules; its loop decides exactly the definition above. */
  method ValidateReplayedRecord(adj: Adjacency, r: Record) returns (ok: bool)
    requires WellFormed(adj) && |r.positions| == |r.trace|
    ensures ok <==> DeepOk(adj, r)
  {
    hide Replayed, ApplyAction, IsLegalMask;
    var state := Initial(adj);
    var context := InitialContext(|adj|);
    ReplayStep(adj, [], 0);
    StartHistory(adj);
    assert r.trace[..0] == [];
    for k := 0 to |r.trace|
      invariant Replayed(adj, r.trace[..k]) == Ok(state) && Shaped(adj, state)
      invariant IsHistory(adj, r.trace[..k], context)
      invariant forall j :: 0 <= j < k ==> PositionReplays(adj, r, j)
    {
      var position, action := r.positions[k], r.trace[k];
      if state.Terminal() {
        assert !PositionReplays(adj, r, k);
        return false;
      }
      var points, pass, mask := PrepareLegalActions(adj, state);
      MaskUnique(adj, state, mask, position.mask);
      if position.side != state.side || position.mask != mask || position.selected != action || action > |adj| || !mask[action] {
        assert !PositionReplays(adj, r, k);
        return false;
      }
      MaskedIsLegal(adj, state, mask, action);
      ReplayStep(adj, r.trace[..k], action);
      assert r.trace[..k] + [action] == r.trace[..k + 1];
      var applied := Apply(adj, state, RulesAction(|adj|, action).value);
      assert ActionsOf(|adj|, [action])[0] == RulesAction(|adj|, action).value;
      HistoryAdvances(adj, r.trace[..k], context, action);
      state := applied.value.after;
      context := AdvanceContext(|adj|, context, action, state).value;
    }
    assert r.trace[..|r.trace|] == r.trace;
    ok := EndingOk(|adj|, r, state);
  }

  lemma MaskUnique(adj: Adjacency, s: State, mask: seq<bool>, other: seq<bool>)
    requires Shaped(adj, s) && IsLegalMask(adj, s, mask)
    ensures IsLegalMask(adj, s, other) <==> other == mask
  {
    hide ProbeAction;
    if IsLegalMask(adj, s, other) {
      forall i | 0 <= i < |mask| ensures other[i] == mask[i] {
      }
    }
  }

  /** The reference point of the history: after any legal trace the context the validator carries is, board by board,
      the positions of the last four plies, padded with the empty board. */
  lemma {:induction false} FourBoardHistory(adj: Adjacency, trace: seq<nat>) returns (c: Context)
    requires WellFormed(adj) && Replayed(adj, trace).Ok?
    ensures IsHistory(adj, trace, c)
  {
    hide Replayed;
    if trace == [] {
      StartHistory(adj);
      c := InitialContext(|adj|);
    } else {
      var last := |trace| - 1;
      PrefixReplays(adj, trace, last);
      var before := FourBoardHistory(adj, trace[..last]);
      assert trace[..last] + [trace[last]] == trace;
      HistoryAdvances(adj, trace[..last], before, trace[last]);
      c := AdvanceContext(|adj|, before, trace[last], Replayed(adj, trace).value).value;
    }
  }
}
