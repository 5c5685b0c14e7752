/** Distances to corners and to seams on the cube, in closed form for every size. */
module CubeDistances {
  import opened Topology
  import opened CubeGeometry
  import opened CubeTopology
  import opened CubeBuild
  import opened CubeSurface
  import opened Distances

  const CORNER_DISTANCE_FAMILY_SCALE := 6
  const SEAM_DISTANCE_FAMILY_SCALE := 3

  function Min(a: int, b: int): int { if a <= b then a else b }

  function ToEnd(n: nat, i: int): int { Min(i, n - 1 - i) }

  function CornerForm(n: nat, p: Place): int { ToEnd(n, p.row) + ToEnd(n, p.col) }

  function SeamForm(n: nat, p: Place): int { Min(ToEnd(n, p.row), ToEnd(n, p.col)) }

  predicate IsCorner(n: nat, p: Place) {
    (p.row == 0 || p.row == n - 1) && (p.col == 0 || p.col == n - 1)
  }

  /** The corner of the cube a face corner sits at. */
  function CornerVector(n: nat, p: Place): Vec {
    var f := FrameOf(p.face);
    Add(f.normal, Add(Scale(if p.row == 0 then -1 else 1, f.rowAxis), Scale(if p.col == 0 then -1 else 1, f.colAxis)))
  }

  predicate OnSomeEdge(n: nat, p: Place) {
    p.row == 0 || p.row == n - 1 || p.col == 0 || p.col == n - 1
  }

  ghost function CornerIds(n: nat): set<nat>
    requires n >= 2
  {
    set p: nat | p < PointCount(n) && IsCorner(n, PlaceOf(n, p))
  }

  /** The points that have a seam relation in their row. */
  ghost function SeamIds(n: nat, rel: seq<seq<Relation>>): set<nat> {
    set p: nat | p < |rel| && CrossFaceSeam in rel[p]
  }

  function CornerForms(n: nat): (h: seq<int>)
    requires n >= 2
  {
    seq(PointCount(n), p requires 0 <= p < PointCount(n) => CornerForm(n, PlaceOf(n, p)))
  }

  function SeamForms(n: nat): (h: seq<int>)
    requires n >= 2
  {
    seq(PointCount(n), p requires 0 <= p < PointCount(n) => SeamForm(n, PlaceOf(n, p)))
  }

  /** Crossing a seam keeps both forms: the point beyond lies on an edge at the same place or its mirror image. */
  lemma AcrossKeepsForms(n: nat, p: Place, e: Edge)
    requires n >= 2 && OnCube(n, p) && OnEdge(n, p, e)
    ensures CornerForm(n, Neighbor(n, p, e)) == CornerForm(n, p)
    ensures SeamForm(n, Neighbor(n, p, e)) == SeamForm(n, p)
  {
    hide SeamOf, ToEnd;
    MirrorKeepsEnd(n, IndexOn(p, e));
    ToEndOfEnds(n);
    EndsAtEdge(n, p, e);
  }

  lemma MirrorKeepsEnd(n: nat, i: int)
    ensures ToEnd(n, n - 1 - i) == ToEnd(n, i)
  {
  }

  lemma ToEndOfEnds(n: nat)
    requires n >= 1
    ensures ToEnd(n, 0) == 0 && ToEnd(n, n - 1) == 0
  {
  }

  /** On an edge both forms come from the index along it. */
  lemma EndsAtEdge(n: nat, p: Place, e: Edge)
    requires n >= 1 && OnCube(n, p) && OnEdge(n, p, e)
    ensures CornerForm(n, p) == ToEnd(n, IndexOn(p, e)) && SeamForm(n, p) == 0
  {
  }

  lemma InwardForms(n: nat, p: Place, e: Edge)
    requires n >= 2 && OnCube(n, p) && !OnEdge(n, p, e)
    ensures CornerForm(n, Inward(p, e)) <= CornerForm(n, p) + 1
    ensures SeamForm(n, Inward(p, e)) <= SeamForm(n, p) + 1
  {
  }

  lemma CornerwardSide(n: nat, p: Place) returns (e: Edge)
    requires n >= 2 && OnCube(n, p) && CornerForm(n, p) > 0
    ensures CornerForm(n, Neighbor(n, p, e)) == CornerForm(n, p) - 1
  {
    if ToEnd(n, p.row) > 0 {
      e := if p.row <= n - 1 - p.row then TopEdge else BottomEdge;
    } else {
      e := if p.col <= n - 1 - p.col then LeftEdge else RightEdge;
    }
  }

  lemma SeamwardSide(n: nat, p: Place) returns (e: Edge)
    requires n >= 2 && OnCube(n, p) && SeamForm(n, p) > 0
    ensures SeamForm(n, Neighbor(n, p, e)) == SeamForm(n, p) - 1
  {
    if ToEnd(n, p.row) <= ToEnd(n, p.col) {
      e := if p.row <= n - 1 - p.row then TopEdge else BottomEdge;
    } else {
      e := if p.col <= n - 1 - p.col then LeftEdge else RightEdge;
    }
  }

  lemma StepForms(n: nat, p: nat, q: nat)
    requires n >= 2 && NearIds(n, p, q)
    ensures p < PointCount(n) && q < PointCount(n)
    ensures CornerForm(n, PlaceOf(n, q)) <= CornerForm(n, PlaceOf(n, p)) + 1
    ensures SeamForm(n, PlaceOf(n, q)) <= SeamForm(n, PlaceOf(n, p)) + 1
  {
    hide Near, PlaceOf, Neighbor, CornerForm, SeamForm, Inward;
    NearIdsAre(n, p, q);
    var e :| q == NeighborId(n, p, e);
    var place := PlaceOf(n, p);
    if OnEdge(n, place, e) {
      AcrossKeepsForms(n, place, e);
    } else {
      InwardForms(n, place, e);
      NeighborInside(n, place, e);
    }
  }

  lemma NeighborInside(n: nat, p: Place, e: Edge)
    requires !OnEdge(n, p, e)
    ensures Neighbor(n, p, e) == Inward(p, e)
  {
  }

  lemma StepBackTo(n: nat, adj: Adjacency, rel: seq<seq<Relation>>, h: seq<int>, p: nat, e: Edge)
    requires n >= 2 && IsCubeGraph(n, adj, rel) && |h| == PointCount(n) && p < PointCount(n)
    requires h[NeighborId(n, p, e)] == h[p] - 1
    ensures StepBack(adj, h, p, NeighborId(n, p, e))
  {
    var w := NeighborId(n, p, e);
    NearIdsAre(n, p, w);
    NearIdsSymmetric(n, p, w);
  }

  lemma CornerFormZero(n: nat, p: Place)
    requires n >= 1 && OnCube(n, p)
    ensures CornerForm(n, p) >= 0 && (CornerForm(n, p) == 0 <==> IsCorner(n, p))
  {
  }

  lemma CornerFormsCertify(n: nat, adj: Adjacency, rel: seq<seq<Relation>>)
    requires n >= 2 && IsCubeGraph(n, adj, rel)
    ensures Certifies(adj, CornerIds(n), CornerForms(n))
  {
    hide NearIds, Neighbor, CornerForm, IsCorner;
    var h := CornerForms(n);
    forall p: nat | p < |h| ensures h[p] >= 0 && (h[p] == 0 <==> p in CornerIds(n)) {
      CornerFormZero(n, PlaceOf(n, p));
    }
    forall p, q | 0 <= p < |h| && q in adj[p] && q < |h| ensures h[q] <= h[p] + 1 {
      StepForms(n, p, q);
    }
    forall p: nat | p < |h| && h[p] > 0 ensures exists w :: StepBack(adj, h, p, w) {
      var e := CornerwardSide(n, PlaceOf(n, p));
      StepBackTo(n, adj, rel, h, p, e);
    }
  }

  /** A point has a seam relation exactly when it lies on an edge of its face. */
  lemma SeamIdsAre(n: nat, adj: Adjacency, rel: seq<seq<Relation>>, p: nat)
    requires n >= 2 && IsCubeGraph(n, adj, rel) && p < PointCount(n)
    ensures p in SeamIds(n, rel) <==> OnSomeEdge(n, PlaceOf(n, p))
  {
    hide Near, PlaceOf, Neighbor;
    var place := PlaceOf(n, p);
    assert ListOk(n, p, adj[p], rel[p]);
    if CrossFaceSeam in rel[p] {
      var i :| 0 <= i < |rel[p]| && rel[p][i] == CrossFaceSeam;
      assert adj[p][i] in adj[p];
      NearIdsAre(n, p, adj[p][i]);
      var e :| adj[p][i] == NeighborId(n, p, e);
      NeighborsDistinct(n, place, e, if e == TopEdge then LeftEdge else TopEdge);
    }
    if OnSomeEdge(n, place) {
      var e := if place.row == 0 then TopEdge else if place.row == n - 1 then BottomEdge else if place.col == 0 then LeftEdge else RightEdge;
      NearIdsAre(n, p, NeighborId(n, p, e));
      NeighborsDistinct(n, place, e, if e == TopEdge then LeftEdge else TopEdge);
      var i :| 0 <= i < |adj[p]| && adj[p][i] == NeighborId(n, p, e);
      assert rel[p][i] == CrossFaceSeam;
    }
  }

  lemma SeamFormsCertify(n: nat, adj: Adjacency, rel: seq<seq<Relation>>)
    requires n >= 2 && IsCubeGraph(n, adj, rel)
    ensures Certifies(adj, SeamIds(n, rel), SeamForms(n))
  {
    hide NearIds, Neighbor, SeamIds;
    var h := SeamForms(n);
    forall p: nat | p < |h| ensures h[p] >= 0 && (h[p] == 0 <==> p in SeamIds(n, rel)) {
      SeamIdsAre(n, adj, rel, p);
    }
    forall p, q | 0 <= p < |h| && q in adj[p] && q < |h| ensures h[q] <= h[p] + 1 {
      StepForms(n, p, q);
    }
    forall p: nat | p < |h| && h[p] > 0 ensures exists w :: StepBack(adj, h, p, w) {
      var e := SeamwardSide(n, PlaceOf(n, p));
      StepBackTo(n, adj, rel, h, p, e);
    }
  }

  /** The corner distance of (r, c) is min(r, l - r) + min(c, l - c), l = n - 1. */
  lemma CornerDistance(n: nat, adj: Adjacency, rel: seq<seq<Relation>>, p: nat)
    requires n >= 2 && IsCubeGraph(n, adj, rel) && p < PointCount(n)
    ensures CornerForm(n, PlaceOf(n, p)) >= 0
    ensures IsDistance(adj, CornerIds(n), p, CornerForm(n, PlaceOf(n, p)))
  {
    CornerFormsCertify(n, adj, rel);
    CertificateIsDistance(adj, CornerIds(n), CornerForms(n), p);
  }

  /** The seam distance of (r, c) is min(r, l - r, c, l - c). */
  lemma SeamDistance(n: nat, adj: Adjacency, rel: seq<seq<Relation>>, p: nat)
    requires n >= 2 && IsCubeGraph(n, adj, rel) && p < PointCount(n)
    ensures SeamForm(n, PlaceOf(n, p)) >= 0
    ensures IsDistance(adj, SeamIds(n, rel), p, SeamForm(n, PlaceOf(n, p)))
  {
    SeamFormsCertify(n, adj, rel);
    CertificateIsDistance(adj, SeamIds(n, rel), SeamForms(n), p);
  }

  /** The two searches of the build: they never find the graph disconnected, and return the closed forms. */
  method CubeDistancesOf(n: nat, adj: Adjacency, rel: seq<seq<Relation>>, corners: seq<nat>, seams: seq<nat>)
    returns (corner: Found, seam: Found)
    requires n >= 2 && IsCubeGraph(n, adj, rel)
    requires SourceSet(corners) == CornerIds(n) && SourceSet(seams) == SeamIds(n, rel)
    ensures corner == DistancesAre(CornerForms(n)) && seam == DistancesAre(SeamForms(n))
  {
    CubeGraphValid(n, adj, rel);
    forall i | 0 <= i < |corners| ensures corners[i] < |adj| {
      assert corners[i] in SourceSet(corners);
    }
    forall i | 0 <= i < |seams| ensures seams[i] < |adj| {
      assert seams[i] in SourceSet(seams);
    }
    corner := ComputeDistances(adj, corners);
    CornerFormsCertify(n, adj, rel);
    CertifiedResult(adj, CornerIds(n), CornerForms(n), corner);
    seam := ComputeDistances(adj, seams);
    SeamFormsCertify(n, adj, rel);
    CertifiedResult(adj, SeamIds(n, rel), SeamForms(n), seam);
  }

  lemma CertifiedResult(adj: Adjacency, sources: set<nat>, h: seq<int>, r: Found)
    requires Certifies(adj, sources, h)
    requires r.Disconnected? <==> exists p: nat :: p < |adj| && !Reachable(adj, sources, p)
    requires r.DistancesAre? ==> |r.d| == |adj|
    requires r.DistancesAre? ==> forall p: nat :: p < |adj| ==> r.d[p] >= 0 && IsDistance(adj, sources, p, r.d[p])
    ensures r == DistancesAre(h)
  {
    forall p: nat | p < |adj| ensures Reachable(adj, sources, p) && (r.DistancesAre? ==> r.d[p] == h[p]) {
      CertificateIsDistance(adj, sources, h, p);
      var walk :| Walk(adj, sources, walk, p) && |walk| == h[p] + 1;
      if r.DistancesAre? {
        DistanceUnique(adj, sources, p, r.d[p], h[p]);
      }
    }
    assert r.d == h;
  }

  /** Over the supported sizes 2..7 the scaled distances stay within their scales, and the largest size reaches both. */
  lemma FamilyScales(n: nat, p: Place)
    requires OnCube(n, p)
    ensures 2 <= n <= 7 ==> 0 <= CornerForm(n, p) <= CORNER_DISTANCE_FAMILY_SCALE && 0 <= SeamForm(n, p) <= SEAM_DISTANCE_FAMILY_SCALE
    ensures CornerForm(7, Place(p.face, 3, 3)) == CORNER_DISTANCE_FAMILY_SCALE
    ensures SeamForm(7, Place(p.face, 3, 3)) == SEAM_DISTANCE_FAMILY_SCALE
  {
  }
}
