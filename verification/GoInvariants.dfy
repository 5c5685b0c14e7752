/** What every game keeps: no group without liberties, no repeated position, and therefore an end. */
module GoInvariants {
  import opened Topology
  import opened GoRules

  ghost predicate AllAlive(adj: Adjacency, b: Board) {
    forall p :: 0 <= p < |b| && b[p] != Empty ==> !Dead(adj, b, p)
  }

  /** A group is still the group of the same stone on a second board that keeps its stones
      and puts no stone of its colour next to it. */
  lemma GroupStable(adj: Adjacency, b: Board, b': Board, q: nat)
    requires WellFormed(adj) && |b| == |b'| == |adj| && q < |b| && b[q] != Empty
    requires Group(adj, b, q) <= Stones(b', b[q])
    requires Closed(adj, Stones(b', b[q]), Group(adj, b, q))
    ensures Group(adj, b', q) == Group(adj, b, q)
  {
    var region, region' := Stones(b, b[q]), Stones(b', b[q]);
    var g := Group(adj, b, q);
    ComponentClosed(adj, region, q);
    LinkedRefl(adj, region', q);
    var reached := set x | x in g && Linked(adj, region', q, x);
    forall p, y | p in reached && p < |adj| && y in adj[p] && y in region ensures y in reached {
      LinkedStep(adj, region', q, p, y);
    }
    forall x | x in g ensures Linked(adj, region', q, x) {
      ClosedHolds(adj, region, reached, q, x);
    }
    ComponentByClosure(adj, region', q, g);
  }

  lemma LibertyKept(adj: Adjacency, b: Board, b': Board, g: set<nat>, l: nat)
    requires |b| == |b'| && l in Liberties(adj, b, g) && b'[l] == Empty
    ensures Liberties(adj, b', g) != {}
  {
    assert l in Liberties(adj, b', g);
  }

  /** The mover's groups: one that does not hold the new stone was a group before, and its liberties were not the point played. */
  lemma OwnGroupAlive(adj: Adjacency, b: Board, after: Board, point: nat, color: Stone, q: nat)
    requires WellFormed(adj) && |b| == |after| == |adj| && point < |b| && color != Empty && AllAlive(adj, b)
    requires Stones(after, color) == Stones(b, color) + {point}
    requires forall l: nat :: l < |b| && b[l] == Empty && l != point ==> after[l] == Empty
    requires !Dead(adj, after, point)
    requires q < |after| && after[q] == color
    ensures !Dead(adj, after, q)
  {
    var g := Group(adj, after, q);
    ComponentClosed(adj, Stones(after, color), q);
    assert point in Stones(after, color);
    if point in g {
      GroupOfMember(adj, after, q, point);
    } else {
      assert q in Stones(b, color);
      GroupStable(adj, after, b, q);
      assert !Dead(adj, b, q);
      var l :| l in Liberties(adj, b, g);
      var x :| x in g && x < |adj| && l in adj[x];
      assert l != point;
      LibertyKept(adj, b, after, g, l);
    }
  }

  /** A group of the opponent that is not lifted is the same group after the lift. */
  lemma UnliftedGroup(adj: Adjacency, placed: Board, after: Board, point: nat, other: Stone, q: nat)
    requires WellFormed(adj) && |placed| == |after| == |adj| && point < |adj| && other != Empty
    requires after == Remove(placed, Captured(adj, placed, point, other))
    requires q < |after| && after[q] == other
    ensures placed[q] == other && q !in Captured(adj, placed, point, other)
    ensures Group(adj, after, q) == Group(adj, placed, q)
  {
    var taken := Captured(adj, placed, point, other);
    var g := Group(adj, placed, q);
    ComponentClosed(adj, Stones(placed, other), q);
    forall x | x in g ensures x in Stones(after, other) {
      GroupOfMember(adj, placed, q, x);
      assert x in taken ==> q in taken;
    }
    assert Stones(after, other) <= Stones(placed, other);
    GroupStable(adj, placed, after, q);
  }

  /** The opponent's groups: one that was not lifted kept a liberty, or had one away from the point. */
  lemma OpponentGroupAlive(adj: Adjacency, b: Board, placed: Board, after: Board, point: nat, other: Stone, q: nat)
    requires WellFormed(adj) && |b| == |placed| == |after| == |adj| && point < |b| && other != Empty
    requires Stones(placed, other) == Stones(b, other)
    requires forall l: nat :: l < |b| && b[l] == Empty && l != point ==> placed[l] == Empty
    requires after == Remove(placed, Captured(adj, placed, point, other))
    requires q < |after| && after[q] == other
    requires b[q] == other && !Dead(adj, b, q)
    ensures !Dead(adj, after, q)
  {
    hide Liberties, Captured;
    UnliftedGroup(adj, placed, after, point, other, q);
    var g := Group(adj, placed, q);
    assert g == Group(adj, b, q);
    OpponentLiberty(adj, b, placed, point, other, q);
    var l :| l in Liberties(adj, placed, g);
    EmptyStays(adj, placed, after, point, other, l, g);
    LibertyKept(adj, placed, after, g, l);
  }

  lemma EmptyStays(adj: Adjacency, placed: Board, after: Board, point: nat, other: Stone, l: nat, g: set<nat>)
    requires |placed| == |adj| && point < |adj| && after == Remove(placed, Captured(adj, placed, point, other))
    requires l in Liberties(adj, placed, g)
    ensures l < |placed| && after[l] == Empty
  {
  }

  /** Before the lift: a group that is not captured has a liberty once the stone is placed. */
  lemma OpponentLiberty(adj: Adjacency, b: Board, placed: Board, point: nat, other: Stone, q: nat)
    requires WellFormed(adj) && |b| == |placed| == |adj| && point < |b| && q < |b|
    requires forall l: nat :: l < |b| && b[l] == Empty && l != point ==> placed[l] == Empty
    requires placed[q] == other && q !in Captured(adj, placed, point, other)
    requires Liberties(adj, b, Group(adj, placed, q)) != {}
    ensures Liberties(adj, placed, Group(adj, placed, q)) != {}
  {
    hide Group, Component;
    var g := Group(adj, placed, q);
    var l :| l in Liberties(adj, b, g);
    if l == point {
      var x :| x in g && x < |adj| && l in adj[x];
      assert Touches(adj, placed, adj[point], q);
    } else {
      LibertyKept(adj, b, placed, g, l);
    }
  }

  /** Capturing exactly the dead adjacent groups, and refusing suicide, leaves every group a liberty. */
  lemma MoveKeepsAlive(adj: Adjacency, b: Board, point: nat, color: Stone)
    requires WellFormed(adj) && |b| == |adj| && point < |b| && b[point] == Empty && color != Empty && AllAlive(adj, b)
    requires !Dead(adj, Resolve(adj, b, point, color).1, point)
    ensures AllAlive(adj, Resolve(adj, b, point, color).1)
  {
    var placed := b[point := color];
    var taken := Captured(adj, placed, point, Opponent(color));
    var after := Remove(placed, taken);
    hide Dead, Component, Group, WellFormed;
    assert Stones(placed, Opponent(color)) == Stones(b, Opponent(color));
    assert Stones(after, color) == Stones(b, color) + {point};
    forall q | 0 <= q < |after| && after[q] != Empty ensures !Dead(adj, after, q) {
      if after[q] == color {
        OwnGroupAlive(adj, b, after, point, color, q);
      } else {
        assert q in Stones(b, Opponent(color));
        assert !Dead(adj, b, q);
        OpponentGroupAlive(adj, b, placed, after, point, Opponent(color), q);
      }
    }
  }

  // ----- whole games -----

  /** The state after a list of actions, or the refusal of the first illegal one. */
  ghost function Play(adj: Adjacency, s: State, actions: seq<Action>): (r: Outcome<State>)
    requires Shaped(adj, s)
    ensures r.Ok? ==> Shaped(adj, r.value)
    decreases |actions|
  {
    if actions == [] then Ok(s)
    else
      var last := |actions| - 1;
      match Play(adj, s, actions[..last])
      case Rejected(reason) => Rejected(reason)
      case Ok(t) =>
        match ApplyAction(adj, t, actions[last])
        case Rejected(reason) => Rejected(reason)
        case Ok(transition) => Ok(transition.after)
  }

  function PointMoves(actions: seq<Action>): nat {
    if actions == [] then 0
    else PointMoves(actions[..|actions| - 1]) + if actions[|actions| - 1].PointId? then 1 else 0
  }

  function Pow3(n: nat): (r: nat)
    ensures r >= 1
  {
    if n == 0 then 1 else 3 * Pow3(n - 1)
  }

  function Code(b: Board): (c: nat)
    ensures c < Pow3(|b|)
  {
    if b == [] then 0
    else 3 * Code(b[1..]) + match b[0] case Empty => 0 case Black => 1 case White => 2
  }

  lemma {:induction false} CodeInjective(b: Board, b': Board)
    requires |b| == |b'| && Code(b) == Code(b')
    ensures b == b'
  {
    if b != [] {
      CodeInjective(b[1..], b'[1..]);
      assert b == [b[0]] + b[1..] && b' == [b'[0]] + b'[1..];
    }
  }

  function Codes(history: seq<Board>): set<nat> {
    if history == [] then {}
    else Codes(history[..|history| - 1]) + {Code(history[|history| - 1])}
  }

  lemma {:induction false} InCodes(history: seq<Board>, c: nat)
    ensures c in Codes(history) <==> exists i :: 0 <= i < |history| && Code(history[i]) == c
  {
    if history != [] {
      var last := |history| - 1;
      InCodes(history[..last], c);
      assert forall i :: 0 <= i < |history| ==> i == last || history[..last][i] == history[i];
      if exists i :: 0 <= i < last && Code(history[..last][i]) == c {
        var i :| 0 <= i < last && Code(history[..last][i]) == c;
        assert Code(history[i]) == c;
      }
    }
  }

  lemma {:induction false} CodesCount(history: seq<Board>, points: nat)
    requires Distinct(history) && forall i :: 0 <= i < |history| ==> |history[i]| == points
    ensures |Codes(history)| == |history|
    ensures Codes(history) <= UpTo(Pow3(points))
  {
    if history != [] {
      var last := |history| - 1;
      var front := history[..last];
      CodesCount(front, points);
      if Code(history[last]) in Codes(front) {
        InCodes(front, Code(history[last]));
        var i :| 0 <= i < |front| && Code(front[i]) == Code(history[last]);
        CodeInjective(history[i], history[last]);
      }
    }
  }

  lemma SubsetCount<T>(small: set<T>, large: set<T>)
    requires small <= large
    ensures |small| <= |large|
  {
    assert large == small + (large - small);
  }

  /** There are at most 3^P positions, so a history without repeats is no longer. */
  lemma DistinctHistoryBound(history: seq<Board>, points: nat)
    requires Distinct(history) && forall i :: 0 <= i < |history| ==> |history[i]| == points
    ensures |history| <= Pow3(points)
  {
    CodesCount(history, points);
    SubsetCount(Codes(history), UpTo(Pow3(points)));
  }

  /** Bookkeeping of a game: each point move records one position, and passes never outrun
      the point moves by more than the current run of passes. */
  lemma {:induction false} GameLedger(adj: Adjacency, actions: seq<Action>)
    requires WellFormed(adj)
    requires Play(adj, Initial(adj), actions).Ok?
    ensures var s := Play(adj, Initial(adj), actions).value;
      && ValidState(adj, s) && Indexed(s) && s.live
      && |s.history| == PointMoves(actions) + 1
      && |actions| <= 2 * PointMoves(actions) + s.passes
    decreases |actions|
  {
    if actions == [] {
      InitialValid(adj);
    } else {
      var last := |actions| - 1;
      GameLedger(adj, actions[..last]);
      FastEqualsReference(adj, Play(adj, Initial(adj), actions[..last]).value, actions[last]);
    }
  }

  /** Every group of every position of every game has a liberty. */
  lemma {:induction false} NoDeadGroups(adj: Adjacency, actions: seq<Action>)
    requires WellFormed(adj)
    requires Play(adj, Initial(adj), actions).Ok?
    ensures AllAlive(adj, Play(adj, Initial(adj), actions).value.stones)
    decreases |actions|
  {
    if actions != [] {
      var last := |actions| - 1;
      NoDeadGroups(adj, actions[..last]);
      var s := Play(adj, Initial(adj), actions[..last]).value;
      if actions[last].PointId? {
        MoveKeepsAlive(adj, s.stones, actions[last].id, s.side);
      }
    }
  }

  /** Positional superko ends every game: no position repeats, at most 3^P - 1 stones are ever played,
      and no game has more than 2 * 3^P actions. */
  lemma SuperkoTerminates(adj: Adjacency, actions: seq<Action>)
    requires WellFormed(adj)
    requires Play(adj, Initial(adj), actions).Ok?
    ensures Distinct(Play(adj, Initial(adj), actions).value.history)
    ensures PointMoves(actions) <= Pow3(|adj|) - 1
    ensures |actions| <= 2 * Pow3(|adj|)
  {
    GameLedger(adj, actions);
    DistinctHistoryBound(Play(adj, Initial(adj), actions).value.history, |adj|);
  }
}
