/** What the built cube graph is: a connected, symmetric, loop-free graph of degree four with 12n seam edges. */
module CubeSurface {
  import opened Topology
  import opened CubeGeometry
  import opened CubeTopology
  import opened CubeBuild

  function NeighborId(n: nat, p: nat, e: Edge): (q: nat)
    requires n >= 2 && p < PointCount(n)
    ensures q < PointCount(n) && PlaceOf(n, q) == Neighbor(n, PlaceOf(n, p), e)
  {
    NeighborsDistinct(n, PlaceOf(n, p), e, if e == TopEdge then LeftEdge else TopEdge);
    PlaceOfPointId(n, Neighbor(n, PlaceOf(n, p), e));
    PointId(n, Neighbor(n, PlaceOf(n, p), e))
  }

  /** The neighbours of point p are its four side neighbours. */
  lemma NearIdsAre(n: nat, p: nat, q: nat)
    requires n >= 2 && p < PointCount(n)
    ensures NearIds(n, p, q) <==> exists e :: q == NeighborId(n, p, e)
    ensures !NearIds(n, p, p)
  {
    hide Near, PlaceOf, Neighbor;
    NotNearSelf(n, PlaceOf(n, p));
    if q < PointCount(n) {
      NeighborsAreNear(n, PlaceOf(n, p), PlaceOf(n, q));
      if NearIds(n, p, q) {
        var e :| PlaceOf(n, q) == Neighbor(n, PlaceOf(n, p), e);
        SamePlace(n, q, NeighborId(n, p, e));
      }
    }
  }

  lemma SamePlace(n: nat, p: nat, q: nat)
    requires n >= 1 && p < PointCount(n) && q < PointCount(n) && PlaceOf(n, p) == PlaceOf(n, q)
    ensures p == q
  {
    assert PointId(n, PlaceOf(n, p)) == PointId(n, PlaceOf(n, q));
  }

  function Elements(s: seq<nat>): (r: set<nat>)
    ensures forall x :: x in r <==> x in s
  {
    if s == [] then {} else Elements(s[..|s| - 1]) + {s[|s| - 1]}
  }

  lemma {:induction false} DistinctLength(s: seq<nat>)
    requires forall i, j :: 0 <= i < j < |s| ==> s[i] != s[j]
    ensures |Elements(s)| == |s|
  {
    if s != [] {
      var front, last := s[..|s| - 1], s[|s| - 1];
      DistinctLength(front);
      forall x | x in front ensures x != last {
        var i :| 0 <= i < |front| && front[i] == x;
        assert s[i] == x;
      }
    }
  }

  lemma NeighborIdsDistinct(n: nat, p: nat, e: Edge, e': Edge)
    requires n >= 2 && p < PointCount(n) && e != e'
    ensures NeighborId(n, p, e) != NeighborId(n, p, e')
  {
    hide Neighbor, PlaceOf;
    NeighborsDistinct(n, PlaceOf(n, p), e, e');
  }

  function FourIds(n: nat, p: nat): set<nat>
    requires n >= 2 && p < PointCount(n)
  {
    {NeighborId(n, p, TopEdge), NeighborId(n, p, RightEdge), NeighborId(n, p, BottomEdge), NeighborId(n, p, LeftEdge)}
  }

  lemma InFourIds(n: nat, p: nat, q: nat)
    requires n >= 2 && p < PointCount(n)
    ensures q in FourIds(n, p) <==> NearIds(n, p, q)
  {
    hide NearIds, NeighborId, PointCount;
    NearIdsAre(n, p, q);
    if e :| q == NeighborId(n, p, e) {
      match e { case TopEdge => case RightEdge => case BottomEdge => case LeftEdge => }
    }
  }

  lemma FourIdsCount(n: nat, p: nat)
    requires n >= 2 && p < PointCount(n)
    ensures |FourIds(n, p)| == 4
  {
    hide NearIds, NeighborId, PointCount;
    NeighborIdsDistinct(n, p, TopEdge, RightEdge);
    NeighborIdsDistinct(n, p, TopEdge, BottomEdge);
    NeighborIdsDistinct(n, p, TopEdge, LeftEdge);
    NeighborIdsDistinct(n, p, RightEdge, BottomEdge);
    NeighborIdsDistinct(n, p, RightEdge, LeftEdge);
    NeighborIdsDistinct(n, p, BottomEdge, LeftEdge);
  }

  /** Degree four. */
  lemma FourNeighbors(n: nat, adj: Adjacency, rel: seq<seq<Relation>>, p: nat)
    requires n >= 2 && IsCubeGraph(n, adj, rel) && p < PointCount(n)
    ensures |adj[p]| == |rel[p]| == 4
  {
    hide NearIds, FourIds, Label, PointCount;
    assert ListOk(n, p, adj[p], rel[p]);
    forall q: nat ensures q in Elements(adj[p]) <==> q in FourIds(n, p) {
      InFourIds(n, p, q);
    }
    assert Elements(adj[p]) == FourIds(n, p);
    FourIdsCount(n, p);
    DistinctLength(adj[p]);
  }

  /** The validation of the finished graph never fails: degree four, no loops or repeats, edges and relations reciprocal. */
  lemma CubeGraphValid(n: nat, adj: Adjacency, rel: seq<seq<Relation>>)
    requires n >= 2 && IsCubeGraph(n, adj, rel)
    ensures WellFormed(adj)
    ensures forall p :: 0 <= p < |adj| ==> |adj[p]| == |rel[p]| == 4
    ensures forall p, i, j :: 0 <= p < |adj| && 0 <= i < |adj[p]| && 0 <= j < |adj[adj[p][i]]| && adj[adj[p][i]][j] == p ==>
              rel[adj[p][i]][j] == rel[p][i]
  {
    hide NearIds, Label;
    forall p: nat, q: nat | p < |adj| && q in adj[p] ensures q < |adj| && q != p && p in adj[q] {
      NearIdsSymmetric(n, p, q);
      NearIdsAre(n, p, p);
    }
    forall p | 0 <= p < |adj| ensures |adj[p]| == |rel[p]| == 4 && ListOk(n, p, adj[p], rel[p]) {
      FourNeighbors(n, adj, rel, p);
    }
    forall p, i, j | 0 <= p < |adj| && 0 <= i < |adj[p]| && 0 <= j < |adj[adj[p][i]]| && adj[adj[p][i]][j] == p
      ensures rel[adj[p][i]][j] == rel[p][i]
    {
      LabelSymmetric(n, p, adj[p][i]);
      assert ListOk(n, adj[p][i], adj[adj[p][i]], rel[adj[p][i]]);
    }
  }

  lemma NearIdsSymmetric(n: nat, p: nat, q: nat)
    requires n >= 2 && NearIds(n, p, q)
    ensures NearIds(n, q, p) && q < PointCount(n)
  {
    NearSymmetric(n, PlaceOf(n, p), PlaceOf(n, q));
  }

  // ----- connectedness -----

  ghost predicate Joined(n: nat, adj: Adjacency, p: Place, q: Place) {
    OnCube(n, p) && OnCube(n, q) && 0 <= PointId(n, p) && 0 <= PointId(n, q) &&
    Linked(adj, UpTo(|adj|), PointId(n, p), PointId(n, q))
  }

  lemma JoinedSelf(n: nat, adj: Adjacency, rel: seq<seq<Relation>>, p: Place)
    requires n >= 2 && IsCubeGraph(n, adj, rel) && OnCube(n, p)
    ensures Joined(n, adj, p, p)
  {
    PointIdRange(n, p);
    LinkedRefl(adj, UpTo(|adj|), PointId(n, p));
  }

  lemma JoinedStep(n: nat, adj: Adjacency, rel: seq<seq<Relation>>, p: Place, q: Place, e: Edge)
    requires n >= 2 && IsCubeGraph(n, adj, rel) && Joined(n, adj, p, q)
    ensures Joined(n, adj, p, Neighbor(n, q, e))
  {
    PlaceOfPointId(n, q);
    var id: nat := PointId(n, q);
    var next := NeighborId(n, id, e);
    NearIdsAre(n, id, next);
    LinkedStep(adj, UpTo(|adj|), PointId(n, p), id, next);
  }

  /** Within a face: down the first column and along the row. */
  lemma {:induction false} JoinedAlongRow(n: nat, adj: Adjacency, rel: seq<seq<Relation>>, from: Place, f: Face, row: int, col: int)
    requires n >= 2 && IsCubeGraph(n, adj, rel) && OnCube(n, Place(f, row, col)) && Joined(n, adj, from, Place(f, row, 0))
    ensures Joined(n, adj, from, Place(f, row, col))
    decreases col
  {
    hide Joined, IsCubeGraph;
    if col > 0 {
      JoinedAlongRow(n, adj, rel, from, f, row, col - 1);
      JoinedStep(n, adj, rel, from, Place(f, row, col - 1), RightEdge);
    }
  }

  lemma {:induction false} JoinedDownColumn(n: nat, adj: Adjacency, rel: seq<seq<Relation>>, from: Place, f: Face, row: int)
    requires n >= 2 && IsCubeGraph(n, adj, rel) && 0 <= row < n && Joined(n, adj, from, Place(f, 0, 0))
    ensures Joined(n, adj, from, Place(f, row, 0))
    decreases row
  {
    if row > 0 {
      JoinedDownColumn(n, adj, rel, from, f, row - 1);
      JoinedStep(n, adj, rel, from, Place(f, row - 1, 0), BottomEdge);
    }
  }

  lemma JoinedWithinFace(n: nat, adj: Adjacency, rel: seq<seq<Relation>>, from: Place, f: Face, p: Place)
    requires n >= 2 && IsCubeGraph(n, adj, rel) && OnCube(n, p) && p.face == f && Joined(n, adj, from, Place(f, 0, 0))
    ensures Joined(n, adj, from, p)
  {
    JoinedDownColumn(n, adj, rel, from, f, p.row);
    JoinedAlongRow(n, adj, rel, from, f, p.row, p.col);
  }

  lemma JoinedSymmetric(n: nat, adj: Adjacency, rel: seq<seq<Relation>>, p: Place, q: Place)
    requires n >= 2 && IsCubeGraph(n, adj, rel) && Joined(n, adj, p, q)
    ensures Joined(n, adj, q, p)
  {
    CubeGraphValid(n, adj, rel);
    LinkedSym(adj, UpTo(|adj|), PointId(n, p), PointId(n, q));
  }

  lemma JoinedTransitive(n: nat, adj: Adjacency, p: Place, q: Place, r: Place)
    requires Joined(n, adj, p, q) && Joined(n, adj, q, r)
    ensures Joined(n, adj, p, r)
  {
    LinkedTrans(adj, UpTo(|adj|), PointId(n, p), PointId(n, q), PointId(n, r));
  }

  /** Across a seam: if the first corner of a face is joined, so is the first corner of every face next to it. */
  lemma JoinedNextFace(n: nat, adj: Adjacency, rel: seq<seq<Relation>>, from: Place, f: Face, e: Edge)
    requires n >= 2 && IsCubeGraph(n, adj, rel) && Joined(n, adj, from, Place(f, 0, 0))
    ensures Joined(n, adj, from, Place(SeamOf(f, e).face', 0, 0))
  {
    var s := SeamOf(f, e);
    var here := EdgePoint(n, f, e, 0);
    JoinedWithinFace(n, adj, rel, from, f, here);
    JoinedStep(n, adj, rel, from, here, e);
    var there := Neighbor(n, here, e);
    JoinedSelf(n, adj, rel, Place(s.face', 0, 0));
    JoinedWithinFace(n, adj, rel, Place(s.face', 0, 0), s.face', there);
    JoinedSymmetric(n, adj, rel, Place(s.face', 0, 0), there);
    JoinedTransitive(n, adj, from, there, Place(s.face', 0, 0));
  }

  lemma JoinedToFace(n: nat, adj: Adjacency, rel: seq<seq<Relation>>, f: Face)
    requires n >= 2 && IsCubeGraph(n, adj, rel)
    ensures Joined(n, adj, Place(Front, 0, 0), Place(f, 0, 0))
  {
    hide Joined, IsCubeGraph;
    var start := Place(Front, 0, 0);
    JoinedSelf(n, adj, rel, start);
    match f {
      case Front =>
      case Back => JoinedNextFace(n, adj, rel, start, Front, TopEdge); JoinedNextFace(n, adj, rel, start, Top, TopEdge);
      case Left => JoinedNextFace(n, adj, rel, start, Front, LeftEdge);
      case Right => JoinedNextFace(n, adj, rel, start, Front, RightEdge);
      case Top => JoinedNextFace(n, adj, rel, start, Front, TopEdge);
      case Bottom => JoinedNextFace(n, adj, rel, start, Front, BottomEdge);
    }
  }

  /** Every point can be reached from every other. */
  lemma CubeConnected(n: nat, adj: Adjacency, rel: seq<seq<Relation>>, a: nat, b: nat)
    requires n >= 2 && IsCubeGraph(n, adj, rel) && a < PointCount(n) && b < PointCount(n)
    ensures Linked(adj, UpTo(|adj|), a, b)
  {
    var start, p, q := Place(Front, 0, 0), PlaceOf(n, a), PlaceOf(n, b);
    JoinedToFace(n, adj, rel, p.face);
    JoinedWithinFace(n, adj, rel, start, p.face, p);
    JoinedToFace(n, adj, rel, q.face);
    JoinedWithinFace(n, adj, rel, start, q.face, q);
    JoinedSymmetric(n, adj, rel, start, p);
    JoinedTransitive(n, adj, p, start, q);
  }

  // ----- the seam edges -----

  function SeamPair(n: nat, side: (Face, Edge), i: nat): (pair: (nat, nat))
    requires n >= 2 && i < n
    ensures pair.0 < PointCount(n) && PlaceOf(n, pair.0) == EdgePoint(n, side.0, side.1, i)
    ensures pair.1 == NeighborId(n, pair.0, side.1)
  {
    PlaceOfPointId(n, EdgePoint(n, side.0, side.1, i));
    var a: nat := PointId(n, EdgePoint(n, side.0, side.1, i));
    (a, NeighborId(n, a, side.1))
  }

  ghost function SeamPairs(n: nat, side: (Face, Edge), k: nat): set<(nat, nat)>
    requires n >= 2 && k <= n
  {
    set i | 0 <= i < k :: SeamPair(n, side, i)
  }

  lemma SeamPairSide(n: nat, side: (Face, Edge), i: nat)
    requires n >= 2 && i < n
    ensures var (a, b) := SeamPair(n, side, i);
      && PlaceOf(n, a).face == side.0 && PlaceOf(n, b).face == SeamOf(side.0, side.1).face'
      && IndexOn(PlaceOf(n, a), side.1) == i && OnEdge(n, PlaceOf(n, a), side.1)
  {
    hide PlaceOf, SeamOf;
  }

  lemma SeamPairsDiffer(n: nat, side: (Face, Edge), i: nat, j: nat)
    requires n >= 2 && i < j < n
    ensures SeamPair(n, side, i) != SeamPair(n, side, j)
  {
    hide SeamPair, NeighborId, SeamOf, PlaceOf;
    SeamPairSide(n, side, i);
    SeamPairSide(n, side, j);
  }

  lemma {:induction false} SeamPairsCount(n: nat, side: (Face, Edge), k: nat)
    requires n >= 2 && k <= n
    ensures |SeamPairs(n, side, k)| == k
  {
    hide SeamPair, NeighborId, EdgePoint, PlaceOf;
    if k == 0 {
      assert SeamPairs(n, side, k) == {};
    } else {
      SeamPairsCount(n, side, k - 1);
      var last := SeamPair(n, side, k - 1);
      forall i | 0 <= i < k - 1 ensures SeamPair(n, side, i) != last {
        SeamPairsDiffer(n, side, i, k - 1);
      }
      forall pair: (nat, nat) ensures pair in SeamPairs(n, side, k) <==> pair in SeamPairs(n, side, k - 1) || pair == last {
      }
      assert SeamPairs(n, side, k) == SeamPairs(n, side, k - 1) + {last};
    }
  }

  /** The directed seam edges of the first k sides. */
  ghost function SeamEdges(n: nat, k: nat): set<(nat, nat)>
    requires n >= 2 && k <= 24
  {
    if k == 0 then {} else SeamEdges(n, k - 1) + SeamPairs(n, SideAt(k - 1), n)
  }

  function SideAt(k: nat): (Face, Edge)
    requires k < 24
  {
    (FACES[k / 4], EDGES[k % 4])
  }

  lemma SideAtInjective(j: nat, k: nat)
    requires j < 24 && k < 24 && SideAt(j) == SideAt(k)
    ensures j == k
  {
    RankOfFace(j / 4);
    RankOfFace(k / 4);
    RankOfEdge(j % 4);
    RankOfEdge(k % 4);
  }

  lemma SidesApart(n: nat, side: (Face, Edge), side': (Face, Edge), i: nat, j: nat)
    requires n >= 2 && i < n && j < n && side != side'
    ensures SeamPair(n, side, i) != SeamPair(n, side', j)
  {
    hide SeamPair, SeamOf, PlaceOf;
    SeamPairSide(n, side, i);
    SeamPairSide(n, side', j);
    if side.0 == side'.0 {
      SeamFacesDistinct(side.0, side.1, side'.1);
    }
  }

  lemma {:induction false} InSeamEdges(n: nat, k: nat, pair: (nat, nat))
    requires n >= 2 && k <= 24
    ensures pair in SeamEdges(n, k) <==> exists j :: 0 <= j < k && pair in SeamPairs(n, SideAt(j), n)
  {
    hide SeamPairs, SideAt;
    if k > 0 {
      InSeamEdges(n, k - 1, pair);
    }
  }

  lemma SeamPairsApart(n: nat, side: (Face, Edge), side': (Face, Edge), pair: (nat, nat))
    requires n >= 2 && side != side' && pair in SeamPairs(n, side, n)
    ensures pair !in SeamPairs(n, side', n)
  {
    hide SeamPair;
    var i :| 0 <= i < n && SeamPair(n, side, i) == pair;
    forall j | 0 <= j < n ensures SeamPair(n, side', j) != pair {
      SidesApart(n, side, side', i, j);
    }
  }

  lemma NewSide(n: nat, k: nat, pair: (nat, nat))
    requires n >= 2 && k < 24 && pair in SeamPairs(n, SideAt(k), n)
    ensures pair !in SeamEdges(n, k)
  {
    hide SeamPairs, SideAt;
    InSeamEdges(n, k, pair);
    forall j | 0 <= j < k ensures pair !in SeamPairs(n, SideAt(j), n) {
      SidesDiffer(j, k);
      SeamPairsApart(n, SideAt(k), SideAt(j), pair);
    }
  }

  lemma SidesDiffer(j: nat, k: nat)
    requires j < k < 24
    ensures SideAt(j) != SideAt(k)
  {
    hide SideAt;
    if SideAt(j) == SideAt(k) { SideAtInjective(j, k); }
  }

  lemma DisjointUnion<T>(a: set<T>, b: set<T>)
    requires forall x :: x in b ==> x !in a
    ensures |a + b| == |a| + |b|
  {
    assert a !! b;
  }

  lemma {:induction false} SeamEdgesCount(n: nat, k: nat)
    requires n >= 2 && k <= 24
    ensures |SeamEdges(n, k)| == k * n
  {
    hide SeamPairs, SideAt, PointCount;
    if k > 0 {
      var side := SideAt(k - 1);
      var before, added := SeamEdges(n, k - 1), SeamPairs(n, side, n);
      SeamEdgesCount(n, k - 1);
      SeamPairsCount(n, side, n);
      forall pair | pair in added ensures pair !in before {
        NewSide(n, k - 1, pair);
      }
      DisjointUnion(before, added);
      assert SeamEdges(n, k) == before + added;
      OneMore(k, n);
    }
  }

  lemma OneMore(k: nat, n: nat)
    requires k > 0
    ensures k * n == (k - 1) * n + n
  {
  }

  ghost function SeamEdgesOf(n: nat, adj: Adjacency): set<(nat, nat)>
    requires n >= 2 && |adj| == PointCount(n)
  {
    set a: nat, b: nat | a < |adj| && b < |adj| && b in adj[a] && Label(n, a, b) == CrossFaceSeam :: (a, b)
  }

  lemma OnSomeSide(n: nat, a: nat, b: nat)
    requires n >= 2 && a < PointCount(n) && b < PointCount(n)
    ensures NearIds(n, a, b) && Label(n, a, b) == CrossFaceSeam <==> (a, b) in SeamEdges(n, 24)
  {
    hide SeamEdges, SeamPairs, NearIds, Neighbor, PlaceOf, NeighborId;
    NearIdsAre(n, a, b);
    InSeamEdges(n, 24, (a, b));
    var p := PlaceOf(n, a);
    forall e ensures b == NeighborId(n, a, e) && OnEdge(n, p, e) <==> (a, b) in SeamPairs(n, (p.face, e), n) {
      SideOfPair(n, a, b, (p.face, e));
    }
    if NearIds(n, a, b) && Label(n, a, b) == CrossFaceSeam {
      var e :| b == NeighborId(n, a, e);
      NeighborsDistinct(n, p, e, if e == TopEdge then LeftEdge else TopEdge);
      SideAtRank(p.face, e);
    }
    if (a, b) in SeamEdges(n, 24) {
      var j :| 0 <= j < 24 && (a, b) in SeamPairs(n, SideAt(j), n);
      SideOfPair(n, a, b, SideAt(j));
      var e := SideAt(j).1;
      NeighborsDistinct(n, p, e, if e == TopEdge then LeftEdge else TopEdge);
    }
  }

  lemma SideAtRank(f: Face, e: Edge)
    ensures SideAt(4 * Rank(f) + EdgeRank(e)) == (f, e)
  {
    assert (4 * Rank(f) + EdgeRank(e)) / 4 == Rank(f) && (4 * Rank(f) + EdgeRank(e)) % 4 == EdgeRank(e);
  }

  lemma SideOfPair(n: nat, a: nat, b: nat, side: (Face, Edge))
    requires n >= 2 && a < PointCount(n)
    ensures (a, b) in SeamPairs(n, side, n) <==>
            PlaceOf(n, a).face == side.0 && OnEdge(n, PlaceOf(n, a), side.1) && b == NeighborId(n, a, side.1)
  {
    hide PlaceOf, NeighborId, SeamOf;
    var p := PlaceOf(n, a);
    if p.face == side.0 && OnEdge(n, p, side.1) && b == NeighborId(n, a, side.1) {
      var i := IndexOn(p, side.1);
      assert EdgePoint(n, side.0, side.1, i) == p;
      SamePlace(n, SeamPair(n, side, i).0, a);
      assert SeamPair(n, side, i) == (a, b);
    }
    if (a, b) in SeamPairs(n, side, n) {
      var i :| 0 <= i < n && SeamPair(n, side, i) == (a, b);
      SeamPairSide(n, side, i);
    }
  }

  /** Twelve seams of n undirected edges each: 24n directed ones. */
  lemma SeamEdgeCount(n: nat, adj: Adjacency, rel: seq<seq<Relation>>)
    requires n >= 2 && IsCubeGraph(n, adj, rel)
    ensures |SeamEdgesOf(n, adj)| == 2 * (12 * n)
  {
    hide SeamEdges, NearIds, Label;
    SeamEdgesCount(n, 24);
    forall pair: (nat, nat) ensures pair in SeamEdgesOf(n, adj) <==> pair in SeamEdges(n, 24) {
      var (a, b) := pair;
      if a < PointCount(n) && b < PointCount(n) {
        OnSomeSide(n, a, b);
      }
      if pair in SeamEdges(n, 24) {
        PairInRange(n, pair);
      }
    }
    assert SeamEdgesOf(n, adj) == SeamEdges(n, 24);
  }

  lemma PairInRange(n: nat, pair: (nat, nat))
    requires n >= 2 && pair in SeamEdges(n, 24)
    ensures pair.0 < PointCount(n) && pair.1 < PointCount(n)
  {
    hide SeamEdges, SeamPair;
    InSeamEdges(n, 24, pair);
    var j :| 0 <= j < 24 && pair in SeamPairs(n, SideAt(j), n);
    var i :| 0 <= i < n && SeamPair(n, SideAt(j), i) == pair;
  }
}
