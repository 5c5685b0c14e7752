/** The rules as the program runs them: stacks, growing sets and a provisional board changed in place. */
module GoEngine {
  import opened Topology
  import opened GoRules

  method GroupOnStones(adj: Adjacency, stones: Board, point: nat) returns (found: set<nat>)
    requires WellFormed(adj) && |stones| == |adj| && point < |adj|
    ensures found == Group(adj, stones, point)
  {
    var color := stones[point];
    if color == Empty {
      return {};
    }
    ghost var region := Stones(stones, color);
    ghost var points := UpTo(|adj|);
    found := {point};
    var stack: seq<nat> := [point];
    LinkedRefl(adj, region, point);
    while stack != []
      invariant point in found && found <= points
      invariant forall p :: p in found ==> Linked(adj, region, point, p)
      invariant forall p :: p in stack ==> p in found
      invariant forall p, q :: p in found && p !in stack && q in adj[p] && q in region ==> q in found
      decreases points - found, |stack|
    {
      var current := stack[|stack| - 1];
      ghost var below := stack[..|stack| - 1];
      assert forall p :: p in stack ==> p in below || p == current;
      stack := stack[..|stack| - 1];
      ghost var before := found;
      var i := 0;
      while i < |adj[current]|
        invariant 0 <= i <= |adj[current]|
        invariant point in found && current in found && before <= found <= points
        invariant forall p :: p in found ==> Linked(adj, region, point, p)
        invariant forall p :: p in stack ==> p in found
        invariant forall p :: p in below ==> p in stack
        invariant forall p :: p in found && p !in before ==> p in stack
        invariant forall j :: 0 <= j < i && adj[current][j] in region ==> adj[current][j] in found
        invariant found == before ==> stack == below
      {
        var neighbor := adj[current][i];
        if neighbor !in found && stones[neighbor] == color {
          LinkedStep(adj, region, point, current, neighbor);
          found := found + {neighbor};
          stack := stack + [neighbor];
          assert stack[|stack| - 1] == neighbor;
        }
        i := i + 1;
      }
      forall p, q | p in found && p !in stack && q in adj[p] && q in region ensures q in found {
        if p == current {
          var j :| 0 <= j < |adj[current]| && adj[current][j] == q;
        }
      }
      assert before < found || |stack| < |below| + 1;
    }
    ComponentByClosure(adj, region, point, found);
  }

  method LibertiesOnStones(adj: Adjacency, stones: Board, group: set<nat>) returns (liberties: set<nat>)
    requires WellFormed(adj) && |stones| == |adj|
    requires forall p :: p in group ==> p < |adj|
    ensures liberties == Liberties(adj, stones, group)
  {
    liberties := {};
    var rest := group;
    while rest != {}
      invariant rest <= group
      invariant liberties == Liberties(adj, stones, group - rest)
    {
      var point :| point in rest;
      ghost var before := liberties;
      var i := 0;
      while i < |adj[point]|
        invariant 0 <= i <= |adj[point]|
        invariant forall q: nat :: q in liberties <==>
                    q in before || (q < |stones| && stones[q] == Empty && q in adj[point][..i])
      {
        if stones[adj[point][i]] == Empty {
          liberties := liberties + {adj[point][i]};
        }
        assert adj[point][..i + 1] == adj[point][..i] + [adj[point][i]];
        i := i + 1;
      }
      assert adj[point][..i] == adj[point];
      rest := rest - {point};
      assert group - rest == (group - (rest + {point})) + {point};
    }
    assert group - rest == group;
  }

  lemma TouchesMore(adj: Adjacency, b: Board, seen: seq<nat>, n: nat, q: nat)
    requires q < |b|
    ensures Touches(adj, b, seen + [n], q) <==> Touches(adj, b, seen, q) || n in Group(adj, b, q)
  {
    assert forall r :: r in seen + [n] <==> r in seen || r == n;
  }

  /** What the neighbours looked at so far have settled: every stone whose group they touch, and which of those are dead. */
  ghost predicate CapturedSoFar(adj: Adjacency, b: Board, seen: seq<nat>, color: Stone, captured: set<nat>, checked: set<nat>)
    requires |b| == |adj|
  {
    forall q: nat ::
      && (q in checked <==> q < |b| && b[q] == color && Touches(adj, b, seen, q))
      && (q in captured <==> q in checked && q < |b| && Dead(adj, b, q))
  }

  /** A further neighbour settles exactly its own group. */
  lemma CapturedStep(adj: Adjacency, b: Board, seen: seq<nat>, n: nat, color: Stone,
                     captured: set<nat>, checked: set<nat>, group: set<nat>)
    requires WellFormed(adj) && |b| == |adj| && color != Empty && n < |b| && b[n] == color
    requires CapturedSoFar(adj, b, seen, color, captured, checked)
    requires group == Group(adj, b, n)
    ensures CapturedSoFar(adj, b, seen + [n], color,
                          if Dead(adj, b, n) then captured + group else captured, checked + group)
  {
    var captured', checked' := if Dead(adj, b, n) then captured + group else captured, checked + group;
    forall q: nat
      ensures q in checked' <==> q < |b| && b[q] == color && Touches(adj, b, seen + [n], q)
      ensures q in captured' <==> q in checked' && q < |b| && Dead(adj, b, q)
    {
      if q in group { GroupOfMember(adj, b, n, q); }
      if q < |b| {
        TouchesMore(adj, b, seen, n, q);
        if n in Group(adj, b, q) { GroupOfMember(adj, b, q, n); }
      }
    }
  }

  lemma CapturedSkip(adj: Adjacency, b: Board, seen: seq<nat>, n: nat, color: Stone, captured: set<nat>, checked: set<nat>)
    requires WellFormed(adj) && |b| == |adj| && color != Empty && n < |b|
    requires CapturedSoFar(adj, b, seen, color, captured, checked)
    requires b[n] != color || n in checked
    ensures CapturedSoFar(adj, b, seen + [n], color, captured, checked)
  {
    forall q: nat | q < |b| ensures b[q] == color && Touches(adj, b, seen + [n], q) <==> q in checked {
      TouchesMore(adj, b, seen, n, q);
      if b[q] == color && n in Group(adj, b, q) {
        GroupOfMember(adj, b, q, n);
      }
    }
  }

  /** The neighbour loop with its checked set: whatever the neighbour order, what it collects is the
      union of the dead opponent groups touching the point. */
  method CollectCaptured(adj: Adjacency, provisional: array<Stone>, action: nat, opponentColor: Stone)
    returns (captured: set<nat>)
    requires WellFormed(adj) && provisional.Length == |adj| && action < |adj| && opponentColor != Empty
    ensures captured == Captured(adj, provisional[..], action, opponentColor)
  {
    ghost var placed := provisional[..];
    captured := {};
    var checked: set<nat> := {};
    var i := 0;
    while i < |adj[action]|
      invariant 0 <= i <= |adj[action]|
      invariant CapturedSoFar(adj, placed, adj[action][..i], opponentColor, captured, checked)
    {
      var neighbor := adj[action][i];
      assert adj[action][..i + 1] == adj[action][..i] + [neighbor];
      if provisional[neighbor] != opponentColor || neighbor in checked {
        CapturedSkip(adj, placed, adj[action][..i], neighbor, opponentColor, captured, checked);
      } else {
        var group := GroupOnStones(adj, provisional[..], neighbor);
        CapturedStep(adj, placed, adj[action][..i], neighbor, opponentColor, captured, checked, group);
        forall p | p in group ensures p < |adj| { GroupOfMember(adj, placed, neighbor, p); }
        var liberties := LibertiesOnStones(adj, provisional[..], group);
        checked := checked + group;
        if liberties == {} {
          captured := captured + group;
        }
      }
      i := i + 1;
    }
    assert adj[action][..i] == adj[action];
  }

  method LiftStones(provisional: array<Stone>, captured: set<nat>)
    requires forall p :: p in captured ==> p < provisional.Length
    modifies provisional
    ensures provisional[..] == Remove(old(provisional[..]), captured)
  {
    var lifted := captured;
    while lifted != {}
      invariant lifted <= captured
      invariant forall p :: 0 <= p < provisional.Length ==>
                  provisional[p] == if p in captured && p !in lifted then Empty else old(provisional[p])
    {
      var point :| point in lifted;
      provisional[point] := Empty;
      lifted := lifted - {point};
    }
  }

  method HasNoLiberty(adj: Adjacency, stones: Board, point: nat) returns (dead: bool)
    requires WellFormed(adj) && |stones| == |adj| && point < |adj|
    ensures dead == Dead(adj, stones, point)
  {
    var group := GroupOnStones(adj, stones, point);
    forall p | p in group ensures p < |adj| { GroupOfMember(adj, stones, point, p); }
    var liberties := LibertiesOnStones(adj, stones, group);
    dead := liberties == {};
  }

  /** The point probe on a provisional board. */
  method ProbePointInPlace(adj: Adjacency, s: State, action: nat) returns (r: Outcome<ActionProbe>)
    requires WellFormed(adj) && Shaped(adj, s) && action < |adj|
    ensures r == ProbePoint(adj, s, action)
  {
    if s.stones[action] != Empty {
      return Rejected(Occupied);
    }
    var provisional := new Stone[|s.stones|](i requires 0 <= i < |s.stones| => s.stones[i]);
    provisional[action] := s.side;
    assert provisional[..] == s.stones[action := s.side];
    var captured := CollectCaptured(adj, provisional, action, Opponent(s.side));
    LiftStones(provisional, captured);
    var newStones := provisional[..];
    assert (captured, newStones) == Resolve(adj, s.stones, action, s.side);
    var suicide := HasNoLiberty(adj, newStones, action);
    if suicide {
      return Rejected(Suicide);
    }
    if newStones in s.membership {
      return Rejected(Superko);
    }
    return Ok(ActionProbe(action, captured, newStones));
  }

  method Apply(adj: Adjacency, s: State, action: Action) returns (r: Outcome<Transition>)
    requires WellFormed(adj) && Shaped(adj, s)
    ensures r == ApplyAction(adj, s, action)
  {
    if s.Terminal() {
      return Rejected(MoveAfterTerminal);
    }
    match action
    case Pass => r := Ok(Transition(s, Pass, {}, AfterPass(s)));
    case NotAnAction => r := Rejected(InvalidActionId);
    case PointId(id) =>
      if !(0 <= id < |adj|) {
        return Rejected(InvalidActionId);
      }
      var probe := ProbePointInPlace(adj, s, id);
      match probe
      case Rejected(reason) => r := Rejected(reason);
      case Ok(p) => r := Ok(Transition(s, action, p.captured, AfterPoint(s, p.stones)));
  }

  /** One probe per point, in ascending order, keeping the points that are not refused. */
  method LegalPoints(adj: Adjacency, s: State) returns (legal: seq<nat>)
    requires WellFormed(adj) && Shaped(adj, s) && !s.Terminal()
    ensures forall p: nat :: p in legal <==> p < |adj| && LegalPoint(adj, s, p)
    ensures forall i, j :: 0 <= i < j < |legal| ==> legal[i] < legal[j]
  {
    legal := [];
    var point := 0;
    while point < |adj|
      invariant 0 <= point <= |adj|
      invariant forall p: nat :: p in legal <==> p < point && LegalPoint(adj, s, p)
      invariant forall i, j :: 0 <= i < j < |legal| ==> legal[i] < legal[j]
    {
      var probe := ProbePointInPlace(adj, s, point);
      if probe.Ok? {
        forall i | 0 <= i < |legal| ensures legal[i] < point {
          assert legal[i] in legal;
        }
        legal := legal + [point];
      }
      point := point + 1;
    }
  }

  /** The legality pass: legal points in ascending order, and a mask that marks exactly those, then PASS. */
  method PrepareLegalActions(adj: Adjacency, s: State) returns (points: seq<nat>, pass: bool, mask: seq<bool>)
    requires WellFormed(adj) && Shaped(adj, s)
    ensures IsLegalMask(adj, s, mask)
    ensures pass == ApplyAction(adj, s, Pass).Ok?
    ensures forall p: nat :: p in points <==> ApplyAction(adj, s, PointId(p)).Ok?
    ensures forall i, j :: 0 <= i < j < |points| ==> points[i] < points[j]
  {
    if s.Terminal() {
      return [], false, seq(|adj| + 1, _ => false);
    }
    points := LegalPoints(adj, s);
    pass := true;
    var marks := new bool[|adj| + 1](_ => false);
    var k := 0;
    while k < |points|
      invariant 0 <= k <= |points|
      invariant forall p :: 0 <= p < |adj| ==> marks[p] == (p in points[..k])
      invariant !marks[|adj|]
    {
      assert points[..k + 1] == points[..k] + [points[k]];
      assert points[k] in points;
      marks[points[k]] := true;
      k := k + 1;
    }
    assert points[..k] == points;
    marks[|adj|] := true;
    mask := marks[..];
  }
}
