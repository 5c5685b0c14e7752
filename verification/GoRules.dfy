/** The graph-area-v1 rules as functions of a position: groups, captures, suicide, positional superko, passes. */
module GoRules {
  import opened Topology

  datatype Stone = Empty | Black | White
  type Board = seq<Stone>

  function Opponent(color: Stone): Stone
    requires color != Empty
  {
    if color == Black then White else Black
  }

  /** The recorded positions, oldest first, and the membership index the fast path looks them up in. */
  datatype State = State(
    stones: Board,
    side: Stone,
    history: seq<Board>,
    membership: set<Board>,
    passes: int,
    live: bool)
  {
    predicate Terminal() { passes == 2 }
  }

  /** A caller's action: the pass sentinel, an integer, or anything else. */
  datatype Action = Pass | PointId(id: int) | NotAnAction

  datatype Illegal = Occupied | Suicide | Superko | InvalidActionId | MoveAfterTerminal | InvalidState

  datatype Outcome<+T> = Ok(value: T) | Rejected(reason: Illegal)

  datatype ActionProbe = ActionProbe(action: nat, captured: set<nat>, stones: Board)

  datatype Transition = Transition(before: State, action: Action, captured: set<nat>, after: State)

  ghost predicate Shaped(adj: Adjacency, s: State) {
    |s.stones| == |adj| && s.side != Empty
  }

  /** The checks of the state constructor: board shape, side, superko history, passes and,
      for a live state, that the history ends here and never repeats. */
  ghost predicate ValidState(adj: Adjacency, s: State) {
    && Shaped(adj, s)
    && s.history != []
    && (forall i :: 0 <= i < |s.history| ==> |s.history[i]| == |adj|)
    && 0 <= s.passes <= 2
    && (s.live ==> s.history[|s.history| - 1] == s.stones && Distinct(s.history))
    && (!s.live ==> s.stones in s.history)
  }

  ghost predicate Distinct(history: seq<Board>) {
    forall i, j :: 0 <= i < j < |history| ==> history[i] != history[j]
  }

  /** The membership index holds exactly the recorded positions. */
  ghost predicate Indexed(s: State) {
    s.membership == set i | 0 <= i < |s.history| :: s.history[i]
  }

  function EmptyBoard(points: nat): (b: Board)
    ensures |b| == points && forall p :: 0 <= p < points ==> b[p] == Empty
  {
    seq(points, _ => Empty)
  }

  function Initial(adj: Adjacency): State {
    var b := EmptyBoard(|adj|);
    State(b, Black, [b], {b}, 0, true)
  }

  ghost function Stones(b: Board, color: Stone): set<nat> {
    set p: nat | p < |b| && b[p] == color
  }

  /** The maximal same-coloured region around a stone; nothing around an empty point. */
  ghost function Group(adj: Adjacency, b: Board, p: nat): set<nat>
    requires p < |b|
  {
    if b[p] == Empty then {} else Component(adj, Stones(b, b[p]), p)
  }

  ghost function Liberties(adj: Adjacency, b: Board, group: set<nat>): set<nat> {
    set q: nat | q < |b| && b[q] == Empty && exists p :: p in group && p < |adj| && q in adj[p]
  }

  lemma GroupOfMember(adj: Adjacency, b: Board, p: nat, q: nat)
    requires WellFormed(adj) && |b| == |adj| && p < |b| && q in Group(adj, b, p)
    ensures q < |b| && b[q] == b[p] && Group(adj, b, q) == Group(adj, b, p) && p in Group(adj, b, q)
  {
    ComponentClosed(adj, Stones(b, b[p]), p);
    ComponentOfMember(adj, Stones(b, b[p]), p, q);
  }

  lemma GroupOfSelf(adj: Adjacency, b: Board, p: nat)
    requires WellFormed(adj) && |b| == |adj| && p < |b| && b[p] != Empty
    ensures p in Group(adj, b, p)
  {
    ComponentClosed(adj, Stones(b, b[p]), p);
  }

  /** No empty point touches the group of p. */
  ghost predicate Dead(adj: Adjacency, b: Board, p: nat)
    requires p < |b|
  {
    Liberties(adj, b, Group(adj, b, p)) == {}
  }

  /** The group of q holds one of these neighbours. */
  ghost predicate Touches(adj: Adjacency, b: Board, neighbors: seq<nat>, q: nat)
    requires q < |b|
  {
    exists r :: r in neighbors && r in Group(adj, b, q)
  }

  /** The stones of this colour whose group touches the point just played and has no liberty left. */
  ghost function Captured(adj: Adjacency, b: Board, point: nat, color: Stone): set<nat>
    requires point < |adj|
  {
    set q: nat | q < |b| && b[q] == color && Dead(adj, b, q) && Touches(adj, b, adj[point], q)
  }

  function Remove(b: Board, taken: set<nat>): (after: Board)
    ensures |after| == |b|
    ensures forall p :: 0 <= p < |b| ==> after[p] == if p in taken then Empty else b[p]
  {
    seq(|b|, p requires 0 <= p < |b| => if p in taken then Empty else b[p])
  }

  /** The board after playing a stone and lifting what it captures, before the suicide and superko checks. */
  ghost function Resolve(adj: Adjacency, b: Board, point: nat, color: Stone): (r: (set<nat>, Board))
    requires point < |b| == |adj| && color != Empty
    ensures |r.1| == |b|
  {
    var placed := b[point := color];
    var taken := Captured(adj, placed, point, Opponent(color));
    (taken, Remove(placed, taken))
  }

  ghost function ProbePoint(adj: Adjacency, s: State, point: nat): Outcome<ActionProbe>
    requires Shaped(adj, s) && point < |adj|
  {
    if s.stones[point] != Empty then Rejected(Occupied)
    else
      var (taken, after) := Resolve(adj, s.stones, point, s.side);
      if Dead(adj, after, point) then Rejected(Suicide)
      else if after in s.membership then Rejected(Superko)
      else Ok(ActionProbe(point, taken, after))
  }

  ghost function ProbeAction(adj: Adjacency, s: State, action: Action): Outcome<ActionProbe>
    requires Shaped(adj, s)
  {
    if s.Terminal() then Rejected(MoveAfterTerminal)
    else match action
      case Pass => Rejected(InvalidActionId)
      case NotAnAction => Rejected(InvalidActionId)
      case PointId(id) => if 0 <= id < |adj| then ProbePoint(adj, s, id) else Rejected(InvalidActionId)
  }

  ghost function ApplyAction(adj: Adjacency, s: State, action: Action): Outcome<Transition>
    requires Shaped(adj, s)
  {
    if s.Terminal() then Rejected(MoveAfterTerminal)
    else match action
      case Pass => Ok(Transition(s, Pass, {}, AfterPass(s)))
      case NotAnAction => Rejected(InvalidActionId)
      case PointId(id) =>
        if !(0 <= id < |adj|) then Rejected(InvalidActionId)
        else match ProbePoint(adj, s, id)
          case Rejected(reason) => Rejected(reason)
          case Ok(probe) => Ok(Transition(s, action, probe.captured, AfterPoint(s, probe.stones)))
  }

  function AfterPass(s: State): State
    requires s.side != Empty
  {
    s.(side := Opponent(s.side), passes := s.passes + 1)
  }

  function AfterPoint(s: State, stones: Board): State
    requires s.side != Empty
  {
    State(stones, Opponent(s.side), s.history + [stones], s.membership + {stones}, 0, s.live)
  }

  ghost predicate LegalPoint(adj: Adjacency, s: State, p: int)
    requires Shaped(adj, s)
  {
    ProbeAction(adj, s, PointId(p)).Ok?
  }

  /** The mask handed to search and observation: one entry per point, then PASS. */
  ghost predicate IsLegalMask(adj: Adjacency, s: State, mask: seq<bool>)
    requires Shaped(adj, s)
  {
    && |mask| == |adj| + 1
    && (forall p :: 0 <= p < |adj| ==> mask[p] == LegalPoint(adj, s, p))
    && mask[|adj|] == !s.Terminal()
  }

  // ----- the slow, fully validated form -----

  /** The reference transition: superko is looked up in the recorded history itself and
      every child state goes through the validating constructor. */
  ghost function ReferenceApply(adj: Adjacency, s: State, action: Action): Outcome<Transition>
    requires Shaped(adj, s)
  {
    if s.Terminal() then Rejected(MoveAfterTerminal)
    else match action
      case Pass => Construct(adj, s, Pass, {}, s.(side := Opponent(s.side), passes := s.passes + 1))
      case NotAnAction => Rejected(InvalidActionId)
      case PointId(id) =>
        if !(0 <= id < |adj|) then Rejected(InvalidActionId)
        else if s.stones[id] != Empty then Rejected(Occupied)
        else
          var (taken, after) := Resolve(adj, s.stones, id, s.side);
          if Dead(adj, after, id) then Rejected(Suicide)
          else if after in s.history then Rejected(Superko)
          else Construct(adj, s, action, taken,
                         s.(stones := after, side := Opponent(s.side), history := s.history + [after], passes := 0))
  }

  ghost function Construct(adj: Adjacency, before: State, action: Action, taken: set<nat>, child: State): Outcome<Transition> {
    if ValidState(adj, child)
    then Ok(Transition(before, action, taken,
                       child.(membership := set i | 0 <= i < |child.history| :: child.history[i])))
    else Rejected(InvalidState)
  }

  /** The trusted fast path and the validating reference agree on every action, refusals included. */
  lemma FastEqualsReference(adj: Adjacency, s: State, action: Action)
    requires ValidState(adj, s) && Indexed(s)
    ensures ApplyAction(adj, s, action) == ReferenceApply(adj, s, action)
    ensures ApplyAction(adj, s, action).Ok? ==>
              ValidState(adj, ApplyAction(adj, s, action).value.after) && Indexed(ApplyAction(adj, s, action).value.after)
  {
    match action
    case Pass =>
    case NotAnAction =>
    case PointId(id) =>
      if !s.Terminal() && 0 <= id < |adj| && s.stones[id] == Empty {
        var after := Resolve(adj, s.stones, id, s.side).1;
        assert after in s.history <==> after in s.membership;
        var longer := s.history + [after];
        assert (set i | 0 <= i < |longer| :: longer[i]) == s.membership + {after} by {
          assert longer[|s.history|] == after;
          forall b | b in s.membership ensures exists i :: 0 <= i < |longer| && longer[i] == b {
            var i :| 0 <= i < |s.history| && s.history[i] == b;
            assert longer[i] == b;
          }
        }
        assert longer[|longer| - 1] == after;
      }
  }

  lemma InitialValid(adj: Adjacency)
    ensures ValidState(adj, Initial(adj)) && Indexed(Initial(adj))
  {
    assert Initial(adj).history[0] == EmptyBoard(|adj|);
  }
}
