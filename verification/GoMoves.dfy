/** Moves and scores told point by point, with nothing but paths and neighbours: the yardstick for the rules. */
module GoMoves {
  import opened Topology
  import opened GoRules
  import opened Scoring

  // ----- paths of one colour -----

  ghost predicate ColorPath(adj: Adjacency, b: Board, path: seq<nat>, q: nat, r: nat) {
    && |path| > 0 && path[0] == q && path[|path| - 1] == r && q < |b|
    && (forall i :: 0 <= i < |path| ==> path[i] < |adj| && path[i] < |b| && b[path[i]] == b[q])
    && forall i :: 0 <= i < |path| - 1 ==> path[i + 1] in adj[path[i]]
  }

  /** r can be reached from q over points that look like q. */
  ghost predicate Joined(adj: Adjacency, b: Board, q: nat, r: nat) {
    exists path :: ColorPath(adj, b, path, q, r)
  }

  /** Some point joined to q touches a point that looks like this. */
  ghost predicate Borders(adj: Adjacency, b: Board, q: nat, look: Stone) {
    exists r: nat, e: nat :: Joined(adj, b, q, r) && r < |adj| && e in adj[r] && e < |b| && b[e] == look
  }

  /** q is joined to a neighbour of p. */
  ghost predicate Meets(adj: Adjacency, b: Board, q: nat, p: nat)
    requires p < |adj|
  {
    exists n :: n in adj[p] && Joined(adj, b, q, n)
  }

  lemma JoinedIsLinked(adj: Adjacency, b: Board, q: nat, r: nat)
    requires q < |b| == |adj|
    ensures Joined(adj, b, q, r) <==> Linked(adj, Stones(b, b[q]), q, r)
  {
    if Joined(adj, b, q, r) {
      var path :| ColorPath(adj, b, path, q, r);
      assert PathBetween(adj, Stones(b, b[q]), path, q, r);
    }
    if path :| PathBetween(adj, Stones(b, b[q]), path, q, r) {
      assert ColorPath(adj, b, path, q, r);
    }
  }

  lemma JoinedIsGroup(adj: Adjacency, b: Board, q: nat, r: nat)
    requires WellFormed(adj) && q < |b| == |adj| && b[q] != Empty
    ensures Joined(adj, b, q, r) <==> r in Group(adj, b, q)
  {
    JoinedIsLinked(adj, b, q, r);
    if Joined(adj, b, q, r) {
      LinkedEnds(adj, Stones(b, b[q]), q, r);
    }
  }

  lemma BreathesIsAlive(adj: Adjacency, b: Board, q: nat)
    requires WellFormed(adj) && q < |b| == |adj| && b[q] != Empty
    ensures Borders(adj, b, q, Empty) <==> !Dead(adj, b, q)
  {
    hide Group, Joined, WellFormed;
    if Borders(adj, b, q, Empty) {
      var r: nat, e: nat :| Joined(adj, b, q, r) && r < |adj| && e in adj[r] && e < |b| && b[e] == Empty;
      JoinedIsGroup(adj, b, q, r);
      assert e in Liberties(adj, b, Group(adj, b, q));
    }
    if !Dead(adj, b, q) {
      var e: nat :| e in Liberties(adj, b, Group(adj, b, q));
      var r: nat :| r in Group(adj, b, q) && r < |adj| && e in adj[r];
      JoinedIsGroup(adj, b, q, r);
    }
  }

  /** The liberties of a stone: the empty points next to something it is joined to. */
  lemma LibertiesExactly(adj: Adjacency, b: Board, q: nat, e: nat)
    requires WellFormed(adj) && q < |b| == |adj| && b[q] != Empty
    ensures e in Liberties(adj, b, Group(adj, b, q)) <==>
              e < |b| && b[e] == Empty && exists r: nat :: r < |adj| && Joined(adj, b, q, r) && e in adj[r]
  {
    hide Group, Joined, WellFormed;
    forall r: nat ensures Joined(adj, b, q, r) <==> r in Group(adj, b, q) {
      JoinedIsGroup(adj, b, q, r);
    }
  }

  lemma MeetsIsTouches(adj: Adjacency, b: Board, q: nat, p: nat)
    requires WellFormed(adj) && q < |b| == |adj| && p < |adj| && b[q] != Empty
    ensures Meets(adj, b, q, p) <==> Touches(adj, b, adj[p], q)
  {
    hide Group, Joined;
    forall n: nat ensures Joined(adj, b, q, n) <==> n in Group(adj, b, q) {
      JoinedIsGroup(adj, b, q, n);
    }
  }

  // ----- what an action does -----

  function Other(side: Stone): Stone { if side == Black then White else Black }

  /** The board after a stone of this side was placed at p: of the other side exactly the stones joined to a neighbour
      of p and to no empty point are gone, and nothing else changed. */
  ghost predicate Lifted(adj: Adjacency, placed: Board, p: nat, side: Stone, after: Board)
    requires p < |adj|
  {
    && |after| == |placed|
    && forall q :: 0 <= q < |placed| ==>
         after[q] == if placed[q] == Other(side) && Meets(adj, placed, q, p) && !Borders(adj, placed, q, Empty) then Empty else placed[q]
  }

  lemma ResolveLifts(adj: Adjacency, b: Board, p: nat, side: Stone)
    requires WellFormed(adj) && p < |b| == |adj| && side != Empty
    ensures Lifted(adj, b[p := side], p, side, Resolve(adj, b, p, side).1)
    ensures Resolve(adj, b, p, side).0 == set q: nat | q < |b| && Resolve(adj, b, p, side).1[q] != b[p := side][q]
  {
    hide Dead, Touches, Borders, Meets, WellFormed;
    var placed := b[p := side];
    forall q: nat | q < |placed| && placed[q] == Other(side)
      ensures q in Captured(adj, placed, p, Opponent(side)) <==> Meets(adj, placed, q, p) && !Borders(adj, placed, q, Empty)
    {
      BreathesIsAlive(adj, placed, q);
      MeetsIsTouches(adj, placed, q, p);
    }
  }

  /** A point move, in full: what is lifted, when it is suicide, when it repeats a position, and the state after it. */
  lemma PointExactly(adj: Adjacency, s: State, p: nat) returns (after: Board)
    requires WellFormed(adj) && Shaped(adj, s) && s.passes != 2 && p < |adj| && s.stones[p] == Empty
    ensures Lifted(adj, s.stones[p := s.side], p, s.side, after)
    ensures !Borders(adj, after, p, Empty) ==> ApplyAction(adj, s, PointId(p)) == Rejected(Suicide)
    ensures Borders(adj, after, p, Empty) && after in s.membership ==> ApplyAction(adj, s, PointId(p)) == Rejected(Superko)
    ensures Borders(adj, after, p, Empty) && after !in s.membership ==>
              ApplyAction(adj, s, PointId(p)) ==
              Ok(Transition(s, PointId(p), (set q: nat | q < |adj| && after[q] != s.stones[p := s.side][q]),
                            State(after, Other(s.side), s.history + [after], s.membership + {after}, 0, s.live)))
  {
    hide Dead, Captured, Borders, Meets, WellFormed;
    ResolveLifts(adj, s.stones, p, s.side);
    after := Resolve(adj, s.stones, p, s.side).1;
    assert after[p] == s.side;
    BreathesIsAlive(adj, after, p);
  }

  /** What a move leaves alone: the mover's stones, every stone of the other side that is joined to an empty point or to
      no neighbour of the point, and every empty point but the one played. */
  lemma MoveSpares(adj: Adjacency, s: State, p: nat, q: nat)
    requires WellFormed(adj) && Shaped(adj, s) && q < |adj| && q != p && ApplyAction(adj, s, PointId(p)).Ok?
    requires var placed := s.stones[p := s.side]; s.stones[q] != Other(s.side) || Borders(adj, placed, q, Empty) || !Meets(adj, placed, q, p)
    ensures ApplyAction(adj, s, PointId(p)).value.after.stones[q] == s.stones[q]
    ensures q !in ApplyAction(adj, s, PointId(p)).value.captured
  {
    hide Borders, Meets, WellFormed, Dead, Captured;
    MoveAllowed(adj, s, p);
    var after := PointExactly(adj, s, p);
  }

  lemma MoveAllowed(adj: Adjacency, s: State, p: nat)
    requires Shaped(adj, s) && ApplyAction(adj, s, PointId(p)).Ok?
    ensures s.passes != 2 && p < |adj| && s.stones[p] == Empty
  {
    hide Dead, Captured;
  }

  /** Everything else: passes, and the four refusals that do not look at the board after the move. */
  lemma OthersExactly(adj: Adjacency, s: State, action: Action)
    requires Shaped(adj, s)
    ensures s.passes == 2 ==> ApplyAction(adj, s, action) == Rejected(MoveAfterTerminal)
    ensures s.passes != 2 && action == Pass ==>
              ApplyAction(adj, s, action) == Ok(Transition(s, Pass, {}, State(s.stones, Other(s.side), s.history, s.membership, s.passes + 1, s.live)))
    ensures s.passes != 2 && action.NotAnAction? ==> ApplyAction(adj, s, action) == Rejected(InvalidActionId)
    ensures s.passes != 2 && action.PointId? && !(0 <= action.id < |adj|) ==> ApplyAction(adj, s, action) == Rejected(InvalidActionId)
    ensures s.passes != 2 && action.PointId? && 0 <= action.id < |adj| && s.stones[action.id] != Empty ==> ApplyAction(adj, s, action) == Rejected(Occupied)
  {
    hide Dead, Captured;
  }

  // ----- the score -----

  /** Who owns what, told point by point: stones count for their colour, empty points for the one colour they are
      joined to the border of, and the rest for nobody. */
  ghost predicate OwnersTold(adj: Adjacency, b: Board, o: seq<Ownership>) {
    && |o| == |b|
    && forall p :: 0 <= p < |b| ==>
         && (o[p] == OwnedBlack <==> b[p] == Black || (b[p] == Empty && Borders(adj, b, p, Black) && !Borders(adj, b, p, White)))
         && (o[p] == OwnedWhite <==> b[p] == White || (b[p] == Empty && Borders(adj, b, p, White) && !Borders(adj, b, p, Black)))
  }

  /** The numbers of a score are counts of points. */
  ghost predicate PointsCounted(b: Board, komi: real, score: GoldenScore) {
    var o := score.ownership;
    && |o| == |b|
    && score.blackStones == |set p: nat | p < |b| && b[p] == Black| && score.whiteStones == |set p: nat | p < |b| && b[p] == White|
    && score.blackTerritory == |set p: nat | p < |b| && b[p] == Empty && o[p] == OwnedBlack|
    && score.whiteTerritory == |set p: nat | p < |b| && b[p] == Empty && o[p] == OwnedWhite|
    && score.neutralPoints == |set p: nat | p < |b| && o[p] == Neutral|
    && score.blackArea == |set p: nat | p < |b| && o[p] == OwnedBlack| && score.whiteArea == |set p: nat | p < |b| && o[p] == OwnedWhite|
    && score.komi == komi && score.marginBlack == (score.blackArea - score.whiteArea) as real - komi
  }

  lemma ReachesIsBorders(adj: Adjacency, b: Board, p: nat, color: Stone)
    requires WellFormed(adj) && p < |b| == |adj| && b[p] == Empty
    ensures Reaches(adj, b, p, color) <==> Borders(adj, b, p, color)
  {
    hide Joined, Linked, WellFormed;
    forall q: nat ensures Joined(adj, b, p, q) <==> Linked(adj, Stones(b, Empty), p, q) {
      JoinedIsLinked(adj, b, p, q);
    }
    if Reaches(adj, b, p, color) {
      var q: nat, r: nat :| BorderStep(adj, b, p, color, q, r);
      assert Joined(adj, b, p, q);
    }
    if Borders(adj, b, p, color) {
      var r: nat, e: nat :| Joined(adj, b, p, r) && r < |adj| && e in adj[r] && e < |b| && b[e] == color;
      assert BorderStep(adj, b, p, color, r, e);
    }
  }

  lemma StonesAre(b: Board)
    ensures Stones(b, Black) == set p: nat | p < |b| && b[p] == Black
    ensures Stones(b, White) == set p: nat | p < |b| && b[p] == White
  {
  }

  lemma OwnedAre(adj: Adjacency, b: Board, komi: real, owner: Ownership)
    ensures var o := Score(adj, b, komi).ownership;
      && |o| == |b|
      && Owned(adj, b, UpTo(|b|), owner) == (set p: nat | p < |b| && o[p] == owner)
      && Owned(adj, b, Stones(b, Empty), owner) == (set p: nat | p < |b| && b[p] == Empty && o[p] == owner)
  {
    hide OwnerOf;
  }

  lemma OwnersExactly(adj: Adjacency, b: Board, komi: real)
    requires WellFormed(adj) && |b| == |adj|
    ensures OwnersTold(adj, b, Score(adj, b, komi).ownership)
  {
    hide Borders, Reaches, WellFormed, Stones, Owned, UpTo;
    forall p: nat | p < |b| && b[p] == Empty
      ensures Reaches(adj, b, p, Black) <==> Borders(adj, b, p, Black)
      ensures Reaches(adj, b, p, White) <==> Borders(adj, b, p, White)
    {
      ReachesIsBorders(adj, b, p, Black);
      ReachesIsBorders(adj, b, p, White);
    }
  }

  /** The score, in full: the owner of every point, and every number as a count of points. */
  lemma ScoreExactly(adj: Adjacency, b: Board, komi: real)
    requires WellFormed(adj) && |b| == |adj|
    ensures OwnersTold(adj, b, Score(adj, b, komi).ownership) && PointsCounted(b, komi, Score(adj, b, komi))
  {
    hide OwnerOf, WellFormed, Stones, Owned, OwnersTold;
    OwnersExactly(adj, b, komi);
    StonesAre(b);
    OwnedAre(adj, b, komi, OwnedBlack);
    OwnedAre(adj, b, komi, OwnedWhite);
    OwnedAre(adj, b, komi, Neutral);
  }
}
