/** Area scoring of a finished game: stones plus the empty regions that only one colour can reach. */
module Scoring {
  import opened Topology
  import opened GoRules

  datatype Ownership = OwnedBlack | OwnedWhite | Neutral

  datatype GoldenScore = GoldenScore(
    blackStones: nat, whiteStones: nat, blackTerritory: nat, whiteTerritory: nat,
    neutralPoints: nat, blackArea: nat, whiteArea: nat, komi: real, marginBlack: real,
    ownership: seq<Ownership>)

  /** A stone of this colour can be reached from p through empty points. */
  ghost predicate Reaches(adj: Adjacency, b: Board, p: nat, color: Stone) {
    exists q: nat, r: nat :: BorderStep(adj, b, p, color, q, r)
  }

  ghost predicate BorderStep(adj: Adjacency, b: Board, p: nat, color: Stone, q: nat, r: nat) {
    q < |adj| && r < |b| && Linked(adj, Stones(b, Empty), p, q) && r in adj[q] && b[r] == color
  }

  /** Who owns a point of a finished position, by reachability alone. */
  ghost function OwnerOf(adj: Adjacency, b: Board, p: nat): Ownership
    requires p < |b|
  {
    match b[p]
    case Black => OwnedBlack
    case White => OwnedWhite
    case Empty =>
      if Reaches(adj, b, p, Black) && !Reaches(adj, b, p, White) then OwnedBlack
      else if Reaches(adj, b, p, White) && !Reaches(adj, b, p, Black) then OwnedWhite
      else Neutral
  }

  ghost function Owned(adj: Adjacency, b: Board, within: set<nat>, owner: Ownership): set<nat> {
    set p | p in within && p < |b| && OwnerOf(adj, b, p) == owner
  }

  /** The score read off the ownership of every point. */
  ghost function Score(adj: Adjacency, b: Board, komi: real): GoldenScore {
    var all, empty := UpTo(|b|), Stones(b, Empty);
    var black, white := |Owned(adj, b, all, OwnedBlack)|, |Owned(adj, b, all, OwnedWhite)|;
    GoldenScore(|Stones(b, Black)|, |Stones(b, White)|,
                |Owned(adj, b, empty, OwnedBlack)|, |Owned(adj, b, empty, OwnedWhite)|,
                |Owned(adj, b, all, Neutral)|, black, white, komi, (black - white) as real - komi,
                seq(|b|, p requires 0 <= p < |b| => OwnerOf(adj, b, p)))
  }

  lemma DisjointCount<T>(a: set<T>, b: set<T>)
    requires a !! b
    ensures |a + b| == |a| + |b|
  {
  }

  /** Every point is assigned once. */
  lemma OwnersPartition(adj: Adjacency, b: Board, within: set<nat>)
    requires forall p :: p in within ==> p < |b|
    ensures |Owned(adj, b, within, OwnedBlack)| + |Owned(adj, b, within, OwnedWhite)| + |Owned(adj, b, within, Neutral)| == |within|
  {
    var black, white, neutral := Owned(adj, b, within, OwnedBlack), Owned(adj, b, within, OwnedWhite), Owned(adj, b, within, Neutral);
    DisjointCount(black, white);
    DisjointCount(black + white, neutral);
    assert black + white + neutral == within;
  }

  /** What an owner holds is stones of the colour and empty points. */
  lemma StonesAndTerritory(adj: Adjacency, b: Board, owner: Ownership, color: Stone)
    requires (owner == OwnedBlack && color == Black) || (owner == OwnedWhite && color == White)
    ensures |Owned(adj, b, UpTo(|b|), owner)| == |Stones(b, color)| + |Owned(adj, b, Stones(b, Empty), owner)|
  {
    DisjointCount(Stones(b, color), Owned(adj, b, Stones(b, Empty), owner));
    assert Owned(adj, b, UpTo(|b|), owner) == Stones(b, color) + Owned(adj, b, Stones(b, Empty), owner);
  }

  /** The two areas and the neutral points add up to the board; each area is its stones plus its territory. */
  lemma AreasPartition(adj: Adjacency, b: Board, komi: real)
    ensures Score(adj, b, komi).blackArea + Score(adj, b, komi).whiteArea + Score(adj, b, komi).neutralPoints == |b|
    ensures Score(adj, b, komi).blackArea == Score(adj, b, komi).blackStones + Score(adj, b, komi).blackTerritory
    ensures Score(adj, b, komi).whiteArea == Score(adj, b, komi).whiteStones + Score(adj, b, komi).whiteTerritory
    ensures Owned(adj, b, UpTo(|b|), Neutral) == Owned(adj, b, Stones(b, Empty), Neutral)
  {
    OwnersPartition(adj, b, UpTo(|b|));
    StonesAndTerritory(adj, b, OwnedBlack, Black);
    StonesAndTerritory(adj, b, OwnedWhite, White);
  }

  /** Empty points of one region see the same stones, so they have one owner. */
  lemma RegionSharesOwner(adj: Adjacency, b: Board, p: nat, q: nat)
    requires WellFormed(adj) && |b| == |adj| && p < |b| && b[p] == Empty
    requires q in Component(adj, Stones(b, Empty), p)
    ensures b[q] == Empty && OwnerOf(adj, b, q) == OwnerOf(adj, b, p)
  {
    var region := Stones(b, Empty);
    ComponentClosed(adj, region, p);
    LinkedSym(adj, region, p, q);
    forall color ensures Reaches(adj, b, p, color) == Reaches(adj, b, q, color) {
      if Reaches(adj, b, p, color) {
        var x: nat, r: nat :| BorderStep(adj, b, p, color, x, r);
        LinkedTrans(adj, region, q, p, x);
        assert BorderStep(adj, b, q, color, x, r);
      }
      if Reaches(adj, b, q, color) {
        var x: nat, r: nat :| BorderStep(adj, b, q, color, x, r);
        LinkedTrans(adj, region, p, q, x);
        assert BorderStep(adj, b, p, color, x, r);
      }
    }
  }

  /** A flood fill under way: what it holds is linked to the start, and the colours noted are reachable. */
  ghost predicate Filling(adj: Adjacency, b: Board, start: nat, component: set<nat>, boundary: set<Stone>) {
    && start in component && component <= UpTo(|adj|)
    && (forall p :: p in component ==> Linked(adj, Stones(b, Empty), start, p))
    && (forall color :: color in boundary ==> color != Empty && Reaches(adj, b, start, color))
  }

  /** Every neighbour of p is in the region or noted on its border. */
  ghost predicate Expanded(adj: Adjacency, b: Board, component: set<nat>, boundary: set<Stone>, p: nat)
    requires WellFormed(adj) && |b| == |adj|
  {
    p < |adj| && forall i :: 0 <= i < |adj[p]| ==>
      if b[adj[p][i]] == Empty then adj[p][i] in component else b[adj[p][i]] in boundary
  }

  /** One popped point: new empty neighbours join the region and the stack, stones are noted. */
  method ExpandPoint(adj: Adjacency, b: Board, start: nat, point: nat, c0: set<nat>, b0: set<Stone>, s0: seq<nat>)
    returns (component: set<nat>, boundary: set<Stone>, stack: seq<nat>)
    requires WellFormed(adj) && |b| == |adj| && Filling(adj, b, start, c0, b0) && point in c0
    requires forall p :: p in s0 ==> p in c0
    ensures Filling(adj, b, start, component, boundary) && c0 <= component && b0 <= boundary
    ensures Expanded(adj, b, component, boundary, point)
    ensures forall p :: p in stack <==> p in s0 || (p in component && p !in c0)
    ensures component == c0 ==> stack == s0
  {
    component, boundary, stack := c0, b0, s0;
    var i := 0;
    while i < |adj[point]|
      invariant 0 <= i <= |adj[point]|
      invariant Filling(adj, b, start, component, boundary) && c0 <= component && b0 <= boundary
      invariant forall j :: 0 <= j < i ==>
                  if b[adj[point][j]] == Empty then adj[point][j] in component else b[adj[point][j]] in boundary
      invariant forall p :: p in stack <==> p in s0 || (p in component && p !in c0)
      invariant component == c0 ==> stack == s0
    {
      var neighbor := adj[point][i];
      var stone := b[neighbor];
      if stone == Empty && neighbor !in component {
        LinkedStep(adj, Stones(b, Empty), start, point, neighbor);
        component := component + {neighbor};
        stack := stack + [neighbor];
      } else if stone != Empty {
        assert BorderStep(adj, b, start, stone, point, neighbor);
        boundary := boundary + {stone};
      }
      i := i + 1;
    }
  }

  /** The flood fill of one empty region, collecting the colours on its border. */
  method EmptyComponent(adj: Adjacency, b: Board, start: nat) returns (component: set<nat>, boundary: set<Stone>)
    requires WellFormed(adj) && |b| == |adj| && start < |b| && b[start] == Empty
    ensures component == Component(adj, Stones(b, Empty), start)
    ensures forall color :: color in boundary <==> color != Empty && Reaches(adj, b, start, color)
  {
    component, boundary := {start}, {};
    var stack: seq<nat> := [start];
    LinkedRefl(adj, Stones(b, Empty), start);
    while stack != []
      invariant Filling(adj, b, start, component, boundary)
      invariant forall p :: p in stack ==> p in component
      invariant forall p :: p in component && p !in stack ==> Expanded(adj, b, component, boundary, p)
      decreases UpTo(|adj|) - component, |stack|
    {
      var point := stack[|stack| - 1];
      var below := stack[..|stack| - 1];
      assert forall p :: p in stack <==> p in below || p == point;
      component, boundary, stack := ExpandPoint(adj, b, start, point, component, boundary, below);
    }
    forall p, q | p in component && p < |adj| && q in adj[p]
      ensures if b[q] == Empty then q in component else b[q] in boundary
    {
      assert Expanded(adj, b, component, boundary, p);
    }
    ComponentByClosure(adj, Stones(b, Empty), start, component);
    forall color | color != Empty && Reaches(adj, b, start, color) ensures color in boundary {
      var q: nat, r: nat :| BorderStep(adj, b, start, color, q, r);
    }
  }

  function OwnerByBoundary(boundary: set<Stone>): Ownership {
    if boundary == {Black} then OwnedBlack else if boundary == {White} then OwnedWhite else Neutral
  }

  lemma BoundaryDecides(adj: Adjacency, b: Board, p: nat, boundary: set<Stone>)
    requires p < |b| && b[p] == Empty
    requires forall color :: color in boundary <==> color != Empty && Reaches(adj, b, p, color)
    ensures OwnerByBoundary(boundary) == OwnerOf(adj, b, p)
  {
    if Reaches(adj, b, p, Black) && !Reaches(adj, b, p, White) {
      assert boundary == {Black};
    } else if Reaches(adj, b, p, White) && !Reaches(adj, b, p, Black) {
      assert boundary == {White};
    } else {
      assert Black in boundary <==> White in boundary;
    }
  }

  /** Adding one region to the points already settled. */
  lemma SettleRegion(adj: Adjacency, b: Board, seen: set<nat>, p: nat, component: set<nat>)
    requires WellFormed(adj) && |b| == |adj| && p < |b| && b[p] == Empty && p !in seen
    requires seen <= Stones(b, Empty) && Closed(adj, Stones(b, Empty), seen)
    requires component == Component(adj, Stones(b, Empty), p)
    ensures p in component && component !! seen && seen + component <= Stones(b, Empty)
    ensures Closed(adj, Stones(b, Empty), seen + component)
    ensures forall o :: |Owned(adj, b, seen + component, o)| ==
                        |Owned(adj, b, seen, o)| + if o == OwnerOf(adj, b, p) then |component| else 0
  {
    var region := Stones(b, Empty);
    ComponentClosed(adj, region, p);
    forall x | x in component && x in seen ensures false {
      LinkedSym(adj, region, p, x);
      ClosedHolds(adj, region, seen, x, p);
    }
    forall x | x in component ensures OwnerOf(adj, b, x) == OwnerOf(adj, b, p) {
      RegionSharesOwner(adj, b, p, x);
    }
    forall o ensures |Owned(adj, b, seen + component, o)| ==
                     |Owned(adj, b, seen, o)| + if o == OwnerOf(adj, b, p) then |component| else 0
    {
      var more := if o == OwnerOf(adj, b, p) then component else {};
      assert Owned(adj, b, seen + component, o) == Owned(adj, b, seen, o) + more;
      DisjointCount(Owned(adj, b, seen, o), more);
    }
  }

  method CountStones(b: Board, color: Stone) returns (count: nat)
    ensures count == |Stones(b, color)|
  {
    count := 0;
    ghost var counted: set<nat> := {};
    for p := 0 to |b|
      invariant forall q: nat :: q in counted <==> q < p && b[q] == color
      invariant count == |counted|
    {
      if b[p] == color {
        count := count + 1;
        counted := counted + {p};
      }
    }
    assert counted == Stones(b, color);
  }

  method Paint(ownership: array<Ownership>, points: set<nat>, owner: Ownership)
    requires forall p :: p in points ==> p < ownership.Length
    modifies ownership
    ensures forall p :: 0 <= p < ownership.Length ==>
              ownership[p] == if p in points then owner else old(ownership[p])
  {
    var rest := points;
    while rest != {}
      invariant rest <= points
      invariant forall p :: 0 <= p < ownership.Length ==>
                  ownership[p] == if p in points && p !in rest then owner else old(ownership[p])
    {
      var p :| p in rest;
      ownership[p] := owner;
      rest := rest - {p};
    }
  }

  ghost predicate Tallied(adj: Adjacency, b: Board, seen: set<nat>, ownership: seq<Ownership>,
                          black: nat, white: nat, neutral: nat)
    requires |ownership| == |b|
  {
    && seen <= Stones(b, Empty) && Closed(adj, Stones(b, Empty), seen)
    && (forall p :: 0 <= p < |b| && (b[p] != Empty || p in seen) ==> ownership[p] == OwnerOf(adj, b, p))
    && black == |Owned(adj, b, seen, OwnedBlack)|
    && white == |Owned(adj, b, seen, OwnedWhite)|
    && neutral == |Owned(adj, b, seen, Neutral)|
  }

  function Plus(owner: Ownership, which: Ownership, count: nat, size: nat): nat {
    if owner == which then count + size else count
  }

  lemma TallyStep(adj: Adjacency, b: Board, seen: set<nat>, o: seq<Ownership>, black: nat, white: nat, neutral: nat,
                  point: nat, component: set<nat>, o': seq<Ownership>)
    requires WellFormed(adj) && |b| == |adj| == |o| == |o'| && point < |b| && b[point] == Empty && point !in seen
    requires Tallied(adj, b, seen, o, black, white, neutral)
    requires component == Component(adj, Stones(b, Empty), point)
    requires forall p :: 0 <= p < |o'| ==> o'[p] == if p in component then OwnerOf(adj, b, point) else o[p]
    ensures point in component
    ensures var owner := OwnerOf(adj, b, point);
      Tallied(adj, b, seen + component, o', Plus(owner, OwnedBlack, black, |component|),
              Plus(owner, OwnedWhite, white, |component|), Plus(owner, Neutral, neutral, |component|))
  {
    SettleRegion(adj, b, seen, point, component);
    forall p | 0 <= p < |b| && (b[p] != Empty || p in seen + component) ensures o'[p] == OwnerOf(adj, b, p) {
      if p in component {
        RegionSharesOwner(adj, b, point, p);
      }
    }
  }

  /** One region: fill it, decide its owner by its border, count it and paint it. */
  method SettleOne(adj: Adjacency, b: Board, ownership: array<Ownership>, point: nat, seen: set<nat>,
                   black0: nat, white0: nat, neutral0: nat)
    returns (seenEmpty: set<nat>, black: nat, white: nat, neutral: nat)
    requires WellFormed(adj) && |b| == |adj| == ownership.Length && point < |b| && b[point] == Empty && point !in seen
    requires Tallied(adj, b, seen, ownership[..], black0, white0, neutral0)
    modifies ownership
    ensures Tallied(adj, b, seenEmpty, ownership[..], black, white, neutral)
    ensures seen + {point} <= seenEmpty
  {
    var component, boundary := EmptyComponent(adj, b, point);
    BoundaryDecides(adj, b, point, boundary);
    ComponentClosed(adj, Stones(b, Empty), point);
    seenEmpty := seen + component;
    black, white, neutral := black0, white0, neutral0;
    var size, owner := |component|, OwnerByBoundary(boundary);
    match owner {
      case OwnedBlack => black := black + size;
      case OwnedWhite => white := white + size;
      case Neutral => neutral := neutral + size;
    }
    ghost var before := ownership[..];
    Paint(ownership, component, owner);
    TallyStep(adj, b, seen, before, black0, white0, neutral0, point, component, ownership[..]);
  }

  /** One pass over the empty points, one flood fill per region. */
  method SettleTerritory(adj: Adjacency, b: Board, ownership: array<Ownership>)
    returns (black: nat, white: nat, neutral: nat)
    requires WellFormed(adj) && |b| == |adj| == ownership.Length
    requires forall p :: 0 <= p < |b| && b[p] != Empty ==> ownership[p] == OwnerOf(adj, b, p)
    modifies ownership
    ensures Tallied(adj, b, Stones(b, Empty), ownership[..], black, white, neutral)
  {
    black, white, neutral := 0, 0, 0;
    var seenEmpty: set<nat> := {};
    assert forall o :: Owned(adj, b, seenEmpty, o) == {};
    for point := 0 to |b|
      invariant Tallied(adj, b, seenEmpty, ownership[..], black, white, neutral)
      invariant forall p :: 0 <= p < point && b[p] == Empty ==> p in seenEmpty
    {
      if b[point] == Empty && point !in seenEmpty {
        seenEmpty, black, white, neutral := SettleOne(adj, b, ownership, point, seenEmpty, black, white, neutral);
      }
    }
    assert seenEmpty == Stones(b, Empty);
  }

  lemma ScoreAssembled(adj: Adjacency, b: Board, komi: real, ownership: seq<Ownership>, black: nat, white: nat, neutral: nat)
    requires |b| == |adj| == |ownership|
    requires Tallied(adj, b, Stones(b, Empty), ownership, black, white, neutral)
    ensures var (stonesB, stonesW) := (|Stones(b, Black)|, |Stones(b, White)|);
      Score(adj, b, komi) == GoldenScore(stonesB, stonesW, black, white, neutral, stonesB + black, stonesW + white, komi,
                                         ((stonesB + black) - (stonesW + white)) as real - komi, ownership)
  {
    hide OwnerOf, Owned, Closed;
    AreasPartition(adj, b, komi);
    var score := Score(adj, b, komi);
    forall p | 0 <= p < |b| ensures ownership[p] == score.ownership[p] {
      assert b[p] != Empty || p in Stones(b, Empty);
    }
    assert ownership == score.ownership;
  }

  datatype ScoreOutcome = Scored(score: GoldenScore) | NotTerminal

  /** The scoring routine computes the reachability score, and only for a finished game. */
  method ScoreTerminal(adj: Adjacency, s: State, komi: real) returns (r: ScoreOutcome)
    requires WellFormed(adj) && |s.stones| == |adj|
    ensures r == if s.Terminal() then Scored(Score(adj, s.stones, komi)) else NotTerminal
  {
    if !s.Terminal() {
      return NotTerminal;
    }
    var b := s.stones;
    var blackStones := CountStones(b, Black);
    var whiteStones := CountStones(b, White);
    var ownership := new Ownership[|b|](p requires 0 <= p < |b| =>
      match b[p] case Black => OwnedBlack case White => OwnedWhite case Empty => Neutral);
    var blackTerritory, whiteTerritory, neutralPoints := SettleTerritory(adj, b, ownership);
    ScoreAssembled(adj, b, komi, ownership[..], blackTerritory, whiteTerritory, neutralPoints);
    var blackArea, whiteArea := blackStones + blackTerritory, whiteStones + whiteTerritory;
    r := Scored(GoldenScore(blackStones, whiteStones, blackTerritory, whiteTerritory, neutralPoints, blackArea,
                            whiteArea, komi, (blackArea - whiteArea) as real - komi, ownership[..]));
  }
}
