/** The point permutations the rotations induce: automorphisms of the cube graph, and a group under composition. */
module CubeRotations {
  import opened Topology
  import opened CubeGeometry
  import opened CubeMatrices
  import opened CubeTopology
  import opened CubeBuild
  import opened CubeSurface
  import opened CubeDistances
  import opened Symmetry

  // ----- one point -----

  datatype Turned = At(place: Place) | FrameMismatch

  /** Where a rotation takes a point, decided on the rotated frame of its face. */
  function RotatePlace(n: nat, m: Matrix, p: Place): Turned {
    var source := FrameOf(p.face);
    var face := FaceWithNormal(MatVec(m, source.normal));
    Settle(n, face, FrameOf(face), MatVec(m, source.rowAxis), MatVec(m, source.colAxis), p)
  }

  function Settle(n: nat, face: Face, target: Frame, ra: Vec, ca: Vec, p: Place): Turned {
    if Along(ra, target.rowAxis) && Along(ca, target.colAxis) then
      At(Place(face, if ra == target.rowAxis then p.row else n - 1 - p.row, if ca == target.colAxis then p.col else n - 1 - p.col))
    else if Along(ra, target.colAxis) && Along(ca, target.rowAxis) then
      At(Place(face, if ca == target.rowAxis then p.col else n - 1 - p.col, if ra == target.colAxis then p.row else n - 1 - p.row))
    else FrameMismatch
  }

  lemma AxisIsNormal(v: Vec)
    requires IsAxis(v)
    ensures FrameOf(FaceWithNormal(v)).normal == v
  {
  }

  predicate Orthogonal(t: Frame) {
    && IsAxis(t.normal) && IsAxis(t.rowAxis) && IsAxis(t.colAxis)
    && DirectionOf(t.rowAxis) != DirectionOf(t.normal) && DirectionOf(t.colAxis) != DirectionOf(t.normal)
    && DirectionOf(t.rowAxis) != DirectionOf(t.colAxis)
  }

  lemma FrameOrthogonal(f: Face)
    ensures Orthogonal(FrameOf(f))
  {
    match f { case Front => case Back => case Left => case Right => case Top => case Bottom => }
  }

  /** In a face plane two perpendicular axes lie along the two face axes. */
  lemma AxesInPlane(t: Frame, ra: Vec, ca: Vec)
    requires Orthogonal(t) && IsAxis(ra) && IsAxis(ca)
    requires DirectionOf(ra) != DirectionOf(t.normal) && DirectionOf(ca) != DirectionOf(t.normal) && DirectionOf(ra) != DirectionOf(ca)
    ensures (Along(ra, t.rowAxis) && Along(ca, t.colAxis)) || (Along(ra, t.colAxis) && Along(ca, t.rowAxis))
  {
    hide IsAxis, DirectionOf, Along;
    AxesAlong(ra, t.rowAxis);
    AxesAlong(ra, t.colAxis);
    AxesAlong(ca, t.rowAxis);
    AxesAlong(ca, t.colAxis);
  }

  function Position(n: int, normal: Vec, u: int, row: Vec, v: int, col: Vec): Vec {
    Add(Scale(n, normal), Add(Scale(u, row), Scale(v, col)))
  }

  lemma FlippedScale(k: int, v: Vec)
    ensures Scale(-k, v) == Scale(k, Neg(v))
  {
    assert (-k) * v.x == k * (-v.x) && (-k) * v.y == k * (-v.y) && (-k) * v.z == k * (-v.z);
  }

  lemma AddSwaps(a: Vec, b: Vec)
    ensures Add(a, b) == Add(b, a)
  {
  }

  /** The row and column chosen reproduce the rotated position, in all eight ways the axes can lie. */
  lemma SettleEmbeds(n: nat, face: Face, ra: Vec, ca: Vec, p: Place)
    requires (Along(ra, FrameOf(face).rowAxis) && Along(ca, FrameOf(face).colAxis)) || (Along(ra, FrameOf(face).colAxis) && Along(ca, FrameOf(face).rowAxis))
    requires OnCube(n, p)
    ensures var r := Settle(n, face, FrameOf(face), ra, ca, p);
      && r.At? && OnCube(n, r.place) && r.place.face == face
      && Embed(n, r.place) == Position(n, FrameOf(face).normal, 2 * p.row - (n - 1), ra, 2 * p.col - (n - 1), ca)
  {
    hide FrameOf, Scale, Add, Neg;
    var u, v := 2 * p.row - (n - 1), 2 * p.col - (n - 1);
    var t := FrameOf(face);
    FlippedScale(u, t.rowAxis);
    FlippedScale(u, t.colAxis);
    FlippedScale(v, t.rowAxis);
    FlippedScale(v, t.colAxis);
    AddSwaps(Scale(u, ra), Scale(v, ca));
    assert 2 * (n - 1 - p.row) - (n - 1) == -u && 2 * (n - 1 - p.col) - (n - 1) == -v;
  }

  lemma EmbedPosition(n: nat, p: Place)
    ensures Embed(n, p) == Position(n, FrameOf(p.face).normal, 2 * p.row - (n - 1), FrameOf(p.face).rowAxis, 2 * p.col - (n - 1), FrameOf(p.face).colAxis)
  {
  }

  lemma MatVecPosition(m: Matrix, n: int, normal: Vec, u: int, row: Vec, v: int, col: Vec)
    ensures MatVec(m, Position(n, normal, u, row, v, col)) == Position(n, MatVec(m, normal), u, MatVec(m, row), v, MatVec(m, col))
  {
    hide MatVec, Add, Scale;
    MatVecLinear(m, Scale(n, normal), Add(Scale(u, row), Scale(v, col)));
    MatVecLinear(m, Scale(u, row), Scale(v, col));
    MatVecScale(m, n, normal);
    MatVecScale(m, u, row);
    MatVecScale(m, v, col);
  }

  lemma RotationKeepsDirections(m: Matrix, a: Vec, b: Vec)
    requires IsRotation(m) && IsAxis(a) && IsAxis(b) && DirectionOf(a) != DirectionOf(b)
    ensures DirectionOf(MatVec(m, a)) != DirectionOf(MatVec(m, b))
  {
    hide MatVec, IsAxis, DirectionOf, Dot;
    RotationKeepsAxes(m, a);
    RotationKeepsAxes(m, b);
    AxesPerpendicular(a, b);
    AxesPerpendicular(MatVec(m, a), MatVec(m, b));
    RotationKeepsDot(m, a, b);
  }

  /** The frame case analysis never fails, and rotating a point is rotating its position. */
  lemma RotateEmbeds(n: nat, m: Matrix, p: Place)
    requires IsRotation(m) && OnCube(n, p)
    ensures RotatePlace(n, m, p).At? && OnCube(n, RotatePlace(n, m, p).place)
    ensures Embed(n, RotatePlace(n, m, p).place) == MatVec(m, Embed(n, p))
    ensures FrameOf(RotatePlace(n, m, p).place.face).normal == MatVec(m, FrameOf(p.face).normal)
  {
    hide IsRotation, MatVec, FrameOf, FaceWithNormal, Embed, Position, Settle, OnCube, IsAxis, Along, DirectionOf;
    var t := FrameOf(p.face);
    var normal, ra, ca := MatVec(m, t.normal), MatVec(m, t.rowAxis), MatVec(m, t.colAxis);
    FrameOrthogonal(p.face);
    RotationKeepsAxes(m, t.normal);
    RotationKeepsAxes(m, t.rowAxis);
    RotationKeepsAxes(m, t.colAxis);
    RotationKeepsDirections(m, t.rowAxis, t.normal);
    RotationKeepsDirections(m, t.colAxis, t.normal);
    RotationKeepsDirections(m, t.rowAxis, t.colAxis);
    var face := FaceWithNormal(normal);
    AxisIsNormal(normal);
    FrameOrthogonal(face);
    AxesInPlane(FrameOf(face), ra, ca);
    SettleEmbeds(n, face, ra, ca, p);
    EmbedPosition(n, p);
    MatVecPosition(m, n, t.normal, 2 * p.row - (n - 1), t.rowAxis, 2 * p.col - (n - 1), t.colAxis);
  }

  // ----- the embedding identifies the point -----

  lemma DistToSelf(v: Vec)
    ensures Dist2(v, v) == 0
  {
  }

  lemma SumOfSquares(a: int, b: int)
    requires (2 * a) * (2 * a) + (2 * b) * (2 * b) == 0
    ensures a == 0 && b == 0
  {
    SquareGrows(2 * a);
    SquareGrows(2 * b);
  }

  lemma OddSquare(u: int, v: int, w: int)
    ensures u % 2 == 1 ==> u * u + v * v + w * w > 0
  {
    SquareGrows(u);
    SquareGrows(v);
    SquareGrows(w);
    if u == 1 || u == -1 { assert u * u == 1; }
  }

  lemma SeamApart(n: nat, p: Place, e: Edge, q: Place)
    requires q.face == SeamOf(p.face, e).face'
    ensures Embed(n, p) != Embed(n, q)
  {
    hide Embed, Dist2, SeamOf, PairedIndex, Depth, IndexOn;
    var u, v, w := 2 * Depth(n, p, e) + 1, 2 * Depth(n, q, SeamOf(p.face, e).edge') + 1, 2 * (IndexOn(p, e) - PairedIndex(n, SeamOf(p.face, e), q));
    CrossDist(n, p, e, q, u, v, w);
    OddSquare(u, v, w);
    DistToSelf(Embed(n, p));
  }

  lemma OppositeApart(n: nat, p: Place, q: Place)
    requires n >= 1 && q.face == Opposite(p.face)
    ensures Embed(n, p) != Embed(n, q)
  {
    EmbedIs(n, p);
    EmbedIs(n, q);
    match p.face { case Front => case Back => case Left => case Right => case Top => case Bottom => }
  }

  lemma EmbedInjective(n: nat, p: Place, q: Place)
    requires n >= 1 && Embed(n, p) == Embed(n, q)
    ensures p == q
  {
    hide Embed, Dist2, SeamOf;
    if p.face == q.face {
      SameFaceDist(n, p, q);
      DistToSelf(Embed(n, p));
      SumOfSquares(p.row - q.row, p.col - q.col);
    } else if q.face == Opposite(p.face) {
      OppositeApart(n, p, q);
    } else {
      var e := FacesMeet(p.face, q.face);
      SeamApart(n, p, e, q);
    }
  }

  // ----- the permutation -----

  /** The number of the point a rotation takes a point to. */
  function RotateId(n: nat, m: Matrix, k: nat): (r: nat)
    requires n >= 2 && IsRotation(m) && k < PointCount(n)
    ensures r < PointCount(n) && RotatePlace(n, m, PlaceOf(n, k)) == At(PlaceOf(n, r))
  {
    var p := PlaceOf(n, k);
    RotateEmbeds(n, m, p);
    var q := RotatePlace(n, m, p).place;
    PlaceOfPointId(n, q);
    PointId(n, q)
  }

  function Permutation(n: nat, m: Matrix): (pi: seq<nat>)
    requires n >= 2 && IsRotation(m)
    ensures |pi| == PointCount(n)
  {
    hide IsRotation, PointCount, MatVec, RotatePlace, RotateId;
    seq(PointCount(n), k requires 0 <= k < PointCount(n) => RotateId(n, m, k))
  }

  lemma RotateIdEmbeds(n: nat, m: Matrix, k: nat)
    requires n >= 2 && IsRotation(m) && k < PointCount(n)
    ensures Embed(n, PlaceOf(n, RotateId(n, m, k))) == MatVec(m, Embed(n, PlaceOf(n, k)))
  {
    hide Embed, RotatePlace, MatVec, IsRotation, FrameOf, PlaceOf;
    RotateEmbeds(n, m, PlaceOf(n, k));
  }

  datatype Mapped = PermutationOf(points: seq<nat>) | Mismatch

  /** The loop over the points that builds one permutation; the frame mismatch error never occurs. */
  method BuildRotation(n: nat, m: Matrix) returns (r: Mapped)
    requires n >= 2 && IsRotation(m)
    ensures r == PermutationOf(Permutation(n, m))
  {
    hide IsRotation, RotatePlace, PlaceOf, Embed, MatVec, FrameOf;
    var mapped: seq<nat> := [];
    for k := 0 to PointCount(n)
      invariant mapped == Permutation(n, m)[..k]
    {
      var turned := RotatePlace(n, m, PlaceOf(n, k));
      RotateEmbeds(n, m, PlaceOf(n, k));
      if turned.FrameMismatch? {
        return Mismatch;
      }
      PlaceOfPointId(n, turned.place);
      mapped := mapped + [PointId(n, turned.place)];
    }
    return PermutationOf(mapped);
  }

  lemma RotationKeepsDist(m: Matrix, u: Vec, v: Vec)
    requires IsRotation(m)
    ensures Dist2(MatVec(m, u), MatVec(m, v)) == Dist2(u, v)
  {
    hide IsRotation, MatVec, Dot, Sub;
    MatVecLinear(m, u, v);
    RotationKeepsNorm(m, Sub(u, v));
  }

  lemma MatVecInjective(m: Matrix, u: Vec, v: Vec)
    requires IsRotation(m) && MatVec(m, u) == MatVec(m, v)
    ensures u == v
  {
    hide IsRotation, MatVec;
    RotationKeepsDist(m, u, v);
    var d := Sub(u, v);
    SquareGrows(d.x);
    SquareGrows(d.y);
    SquareGrows(d.z);
    SquareZero(d.x);
    SquareZero(d.y);
    SquareZero(d.z);
  }

  lemma SquareZero(a: int)
    ensures a * a == 0 ==> a == 0
  {
  }

  lemma RotateIdInjective(n: nat, m: Matrix, j: nat, k: nat)
    requires n >= 2 && IsRotation(m) && j < PointCount(n) && k < PointCount(n) && RotateId(n, m, j) == RotateId(n, m, k)
    ensures j == k
  {
    hide IsRotation, MatVec, Embed, PlaceOf, RotateId;
    RotateIdEmbeds(n, m, j);
    RotateIdEmbeds(n, m, k);
    MatVecInjective(m, Embed(n, PlaceOf(n, j)), Embed(n, PlaceOf(n, k)));
    EmbedInjective(n, PlaceOf(n, j), PlaceOf(n, k));
    SamePlace(n, j, k);
  }

  lemma PermutationIsOne(n: nat, m: Matrix)
    requires n >= 2 && IsRotation(m)
    ensures IsPermutation(Permutation(n, m))
  {
    hide IsRotation, RotateId;
    var pi := Permutation(n, m);
    forall i, j | 0 <= i < j < |pi| ensures pi[i] != pi[j] {
      if pi[i] == pi[j] {
        RotateIdInjective(n, m, i, j);
      }
    }
  }

  /** Adjacency and the same-face or seam relation are kept: both are read off the squared distance. */
  lemma RotationKeepsNear(n: nat, m: Matrix, j: nat, k: nat)
    requires n >= 2 && IsRotation(m) && j < PointCount(n) && k < PointCount(n)
    ensures NearIds(n, RotateId(n, m, j), RotateId(n, m, k)) <==> NearIds(n, j, k)
    ensures NearIds(n, j, k) ==> Label(n, RotateId(n, m, j), RotateId(n, m, k)) == Label(n, j, k)
  {
    hide IsRotation, MatVec, Embed, PlaceOf, RotateId, Dist2;
    RotateIdEmbeds(n, m, j);
    RotateIdEmbeds(n, m, k);
    RotationKeepsDist(m, Embed(n, PlaceOf(n, j)), Embed(n, PlaceOf(n, k)));
    PlacesOn(n, j, k);
    PlacesOn(n, RotateId(n, m, j), RotateId(n, m, k));
  }

  lemma PlacesOn(n: nat, j: nat, k: nat)
    requires n >= 2 && j < PointCount(n) && k < PointCount(n)
    ensures NearIds(n, j, k) ==>
      (Dist2(Embed(n, PlaceOf(n, j)), Embed(n, PlaceOf(n, k))) == 2 <==> Label(n, j, k) == CrossFaceSeam)
  {
    hide Embed, PlaceOf, Dist2, Neighbor, Near;
    NeighborsAreNear(n, PlaceOf(n, j), PlaceOf(n, k));
  }

  /** Every rotation is an automorphism of the cube graph that keeps the relation labels. */
  lemma RotationIsAutomorphism(n: nat, adj: Adjacency, rel: seq<seq<Relation>>, m: Matrix)
    requires n >= 2 && IsRotation(m) && IsCubeGraph(n, adj, rel)
    ensures var pi := Permutation(n, m);
      && Isomorphism(adj, adj, pi)
      && forall p, q: nat, i, j :: 0 <= p < |adj| && 0 <= i < |adj[p]| && q == adj[p][i] && q < |adj| && 0 <= j < |adj[pi[p]]| && adj[pi[p]][j] == pi[q] ==>
           rel[pi[p]][j] == rel[p][i]
  {
    hide IsRotation, RotateId, NearIds, Label;
    var pi := Permutation(n, m);
    PermutationIsOne(n, m);
    forall p: nat, q: nat | p < |adj| && q < |adj| ensures q in adj[p] <==> pi[q] in adj[pi[p]] {
      RotationKeepsNear(n, m, p, q);
    }
    forall p, q: nat, i, j | 0 <= p < |adj| && 0 <= i < |adj[p]| && q == adj[p][i] && q < |adj| && 0 <= j < |adj[pi[p]]| && adj[pi[p]][j] == pi[q]
      ensures rel[pi[p]][j] == rel[p][i]
    {
      RotationKeepsNear(n, m, p, q);
      assert adj[p][i] in adj[p];
      assert ListOk(n, p, adj[p], rel[p]) && ListOk(n, pi[p], adj[pi[p]], rel[pi[p]]);
    }
  }

  // ----- corners and distances -----

  predicate SameOrMirrored(n: nat, i: int, j: int) {
    i == j || i == n - 1 - j
  }

  lemma ShuffledForms(n: nat, p: Place, q: Place)
    requires (SameOrMirrored(n, q.row, p.row) && SameOrMirrored(n, q.col, p.col)) || (SameOrMirrored(n, q.row, p.col) && SameOrMirrored(n, q.col, p.row))
    ensures CornerForm(n, q) == CornerForm(n, p) && SeamForm(n, q) == SeamForm(n, p)
    ensures (IsCorner(n, q) <==> IsCorner(n, p)) && (OnSomeEdge(n, q) <==> OnSomeEdge(n, p))
  {
    hide ToEnd;
    MirrorKeepsEnd(n, p.row);
    MirrorKeepsEnd(n, p.col);
  }

  lemma SettleShuffles(n: nat, face: Face, target: Frame, ra: Vec, ca: Vec, p: Place)
    requires Settle(n, face, target, ra, ca, p).At?
    ensures var q := Settle(n, face, target, ra, ca, p).place;
      || (SameOrMirrored(n, q.row, p.row) && SameOrMirrored(n, q.col, p.col))
      || (SameOrMirrored(n, q.row, p.col) && SameOrMirrored(n, q.col, p.row))
  {
    hide Along;
  }

  lemma ScaleTwice(k: int, l: int, v: Vec)
    ensures Scale(k, Scale(l, v)) == Scale(k * l, v)
  {
    assert k * (l * v.x) == (k * l) * v.x && k * (l * v.y) == (k * l) * v.y && k * (l * v.z) == (k * l) * v.z;
  }

  lemma ScaleSum(k: int, u: Vec, v: Vec)
    ensures Scale(k, Add(u, v)) == Add(Scale(k, u), Scale(k, v))
  {
    Distributes(k, u.x, v.x);
    Distributes(k, u.y, v.y);
    Distributes(k, u.z, v.z);
  }

  lemma OneLess(n: int, v: Vec, w: Vec)
    ensures Add(Scale(n, v), w) == Add(v, Add(Scale(n - 1, v), w))
  {
    assert n * v.x == v.x + (n - 1) * v.x && n * v.y == v.y + (n - 1) * v.y && n * v.z == v.z + (n - 1) * v.z;
  }

  /** At a corner the position is the face normal plus n - 1 times the corner vector. */
  lemma CornerPosition(n: nat, p: Place)
    requires n >= 2 && IsCorner(n, p)
    ensures Embed(n, p) == Add(FrameOf(p.face).normal, Scale(n - 1, CornerVector(n, p)))
  {
    hide FrameOf, Scale, Add;
    var f := FrameOf(p.face);
    var rs, cs := if p.row == 0 then -1 else 1, if p.col == 0 then -1 else 1;
    assert 2 * p.row - (n - 1) == (n - 1) * rs && 2 * p.col - (n - 1) == (n - 1) * cs;
    ScaleTwice(n - 1, rs, f.rowAxis);
    ScaleTwice(n - 1, cs, f.colAxis);
    ScaleSum(n - 1, Scale(rs, f.rowAxis), Scale(cs, f.colAxis));
    ScaleSum(n - 1, f.normal, Add(Scale(rs, f.rowAxis), Scale(cs, f.colAxis)));
    OneLess(n, f.normal, Add(Scale(2 * p.row - (n - 1), f.rowAxis), Scale(2 * p.col - (n - 1), f.colAxis)));
  }

  lemma ScaleCancels(k: int, a: Vec, u: Vec, v: Vec)
    requires k > 0 && Add(a, Scale(k, u)) == Add(a, Scale(k, v))
    ensures u == v
  {
    TimesCancels(k, u.x, v.x);
    TimesCancels(k, u.y, v.y);
    TimesCancels(k, u.z, v.z);
  }

  lemma TimesCancels(k: int, a: int, b: int)
    ensures k > 0 && k * a == k * b ==> a == b
  {
    Distributes(k, a, b);
    TimesGrows(k, a - b);
    TimesGrows(k, b - a);
    Distributes(k, b, a);
  }

  lemma TimesGrows(k: int, d: int)
    ensures k > 0 && d > 0 ==> k * d > 0
  {
  }

  /** Face corners go to face corners, and the corner of the cube they sit at is rotated with them; the two
      distances, and with them the geometry class, are kept. */
  lemma RotationKeepsCorners(n: nat, m: Matrix, k: nat)
    requires n >= 2 && IsRotation(m) && k < PointCount(n)
    ensures var p, q := PlaceOf(n, k), PlaceOf(n, RotateId(n, m, k));
      && (IsCorner(n, q) <==> IsCorner(n, p)) && (OnSomeEdge(n, q) <==> OnSomeEdge(n, p))
      && CornerForm(n, q) == CornerForm(n, p) && SeamForm(n, q) == SeamForm(n, p)
      && (IsCorner(n, p) ==> CornerVector(n, q) == MatVec(m, CornerVector(n, p)))
  {
    hide IsRotation, MatVec, Embed, PlaceOf, RotateId, FrameOf, Add, Scale, CornerVector, IsCorner, OnSomeEdge, CornerForm, SeamForm, Settle, FaceWithNormal, SameOrMirrored;
    var p, q := PlaceOf(n, k), PlaceOf(n, RotateId(n, m, k));
    RotateEmbeds(n, m, p);
    var source := FrameOf(p.face);
    var face := FaceWithNormal(MatVec(m, source.normal));
    SettleShuffles(n, face, FrameOf(face), MatVec(m, source.rowAxis), MatVec(m, source.colAxis), p);
    ShuffledForms(n, p, q);
    if IsCorner(n, p) {
      CornerPosition(n, p);
      CornerPosition(n, q);
      MatVecLinear(m, source.normal, Scale(n - 1, CornerVector(n, p)));
      MatVecScale(m, n - 1, CornerVector(n, p));
      ScaleCancels(n - 1, FrameOf(q.face).normal, CornerVector(n, q), MatVec(m, CornerVector(n, p)));
    }
  }

  /** Points of one physical corner go to points of one physical corner, and only those. */
  lemma PhysicalCornersKept(n: nat, m: Matrix, j: nat, k: nat)
    requires n >= 2 && IsRotation(m) && j in CornerIds(n) && k in CornerIds(n)
    ensures RotateId(n, m, j) in CornerIds(n) && RotateId(n, m, k) in CornerIds(n)
    ensures CornerVector(n, PlaceOf(n, RotateId(n, m, j))) == CornerVector(n, PlaceOf(n, RotateId(n, m, k))) <==>
            CornerVector(n, PlaceOf(n, j)) == CornerVector(n, PlaceOf(n, k))
  {
    hide IsRotation, MatVec, PlaceOf, RotateId, CornerVector, IsCorner;
    RotationKeepsCorners(n, m, j);
    RotationKeepsCorners(n, m, k);
    var u, v := CornerVector(n, PlaceOf(n, j)), CornerVector(n, PlaceOf(n, k));
    if MatVec(m, u) == MatVec(m, v) {
      MatVecInjective(m, u, v);
    }
  }

  // ----- the group -----

  lemma PermutationAt(n: nat, m: Matrix, k: nat)
    requires n >= 2 && IsRotation(m) && k < PointCount(n)
    ensures Permutation(n, m)[k] == RotateId(n, m, k) < PointCount(n)
  {
    hide IsRotation;
  }

  /** One permutation is another after a third at this point. */
  predicate ComposedAt(whole: seq<nat>, after: seq<nat>, first: seq<nat>, k: int) {
    0 <= k < |first| && k < |whole| && first[k] < |after| && whole[k] == after[first[k]]
  }

  /** The permutation of a matrix product is the composition of the permutations. */
  lemma ProductComposes(n: nat, a: Matrix, b: Matrix)
    requires n >= 2 && IsRotation(a) && IsRotation(b)
    ensures IsRotation(Product(a, b))
    ensures forall k :: 0 <= k < PointCount(n) ==> ComposedAt(Permutation(n, Product(a, b)), Permutation(n, a), Permutation(n, b), k)
  {
    hide IsRotation, RotateId, Product, Permutation, PointCount;
    ProductIsRotation(a, b);
    forall k | 0 <= k < PointCount(n) ensures ComposedAt(Permutation(n, Product(a, b)), Permutation(n, a), Permutation(n, b), k) {
      PermutationAt(n, b, k);
      PermutationAt(n, Product(a, b), k);
      PermutationAt(n, a, RotateId(n, b, k));
      ProductComposesAt(n, a, b, k);
    }
  }

  lemma ProductComposesAt(n: nat, a: Matrix, b: Matrix, k: nat)
    requires n >= 2 && IsRotation(a) && IsRotation(b) && IsRotation(Product(a, b)) && k < PointCount(n)
    ensures RotateId(n, Product(a, b), k) == RotateId(n, a, RotateId(n, b, k))
  {
    hide IsRotation, RotateId, MatVec, Embed, PlaceOf, Product;
    var left, right := RotateId(n, Product(a, b), k), RotateId(n, a, RotateId(n, b, k));
    RotateIdEmbeds(n, Product(a, b), k);
    RotateIdEmbeds(n, b, k);
    RotateIdEmbeds(n, a, RotateId(n, b, k));
    ProductActs(a, b, Embed(n, PlaceOf(n, k)));
    EmbedInjective(n, PlaceOf(n, left), PlaceOf(n, right));
    SamePlace(n, left, right);
  }

  /** The image of a corner of the front face and its two neighbours there tells the whole matrix. */
  lemma AxesFromPoints(n: nat, a: Matrix, b: Matrix)
    requires n >= 2 && IsRotation(a) && IsRotation(b)
    requires forall i, j :: 0 <= i < 2 && 0 <= j < 2 ==> MatVec(a, Embed(n, Place(Front, i, j))) == MatVec(b, Embed(n, Place(Front, i, j)))
    ensures a == b
  {
    hide IsRotation, MatVec, Embed;
    var o, r, c := Place(Front, 0, 0), Place(Front, 1, 0), Place(Front, 0, 1);
    FrontSteps(n);
    MatVecLinear(a, Embed(n, r), Embed(n, o));
    MatVecLinear(b, Embed(n, r), Embed(n, o));
    MatVecLinear(a, Embed(n, c), Embed(n, o));
    MatVecLinear(b, Embed(n, c), Embed(n, o));
    ColumnsDetermine(a, b);
  }

  lemma FrontSteps(n: nat)
    ensures Sub(Embed(n, Place(Front, 1, 0)), Embed(n, Place(Front, 0, 0))) == Vec(0, 2, 0)
    ensures Sub(Embed(n, Place(Front, 0, 1)), Embed(n, Place(Front, 0, 0))) == Vec(2, 0, 0)
  {
    EmbedIs(n, Place(Front, 0, 0));
    EmbedIs(n, Place(Front, 1, 0));
    EmbedIs(n, Place(Front, 0, 1));
  }

  lemma ColumnsDetermine(a: Matrix, b: Matrix)
    requires IsRotation(a) && IsRotation(b) && MatVec(a, Vec(2, 0, 0)) == MatVec(b, Vec(2, 0, 0)) && MatVec(a, Vec(0, 2, 0)) == MatVec(b, Vec(0, 2, 0))
    ensures a == b
  {
    hide IsRotation, MatVec, Transposed, Cross;
    var t, u := Transposed(a), Transposed(b);
    FirstColumns(a);
    FirstColumns(b);
    DoubleCancels(t.x, u.x);
    DoubleCancels(t.y, u.y);
    RotationTransposed(a);
    RotationTransposed(b);
    RotationRows(t);
    RotationRows(u);
    TransposedTwice(a);
    TransposedTwice(b);
  }

  lemma FirstColumns(m: Matrix)
    ensures MatVec(m, Vec(2, 0, 0)) == Scale(2, Transposed(m).x) && MatVec(m, Vec(0, 2, 0)) == Scale(2, Transposed(m).y)
  {
  }

  lemma DoubleCancels(u: Vec, v: Vec)
    ensures Scale(2, u) == Scale(2, v) ==> u == v
  {
  }

  lemma TransposedTwice(m: Matrix)
    ensures Transposed(Transposed(m)) == m
  {
  }

  /** Different rotations give different permutations, so no duplicate is ever dropped. */
  lemma PermutationsDiffer(n: nat, a: Matrix, b: Matrix)
    requires n >= 2 && IsRotation(a) && IsRotation(b) && a != b
    ensures Permutation(n, a) != Permutation(n, b)
  {
    hide IsRotation, RotateId, MatVec, Embed, PlaceOf, PointId;
    if Permutation(n, a) == Permutation(n, b) {
      forall i, j | 0 <= i < 2 && 0 <= j < 2 ensures MatVec(a, Embed(n, Place(Front, i, j))) == MatVec(b, Embed(n, Place(Front, i, j))) {
        var p := Place(Front, i, j);
        PlaceOfPointId(n, p);
        var k := PointId(n, p);
        assert Permutation(n, a)[k] == Permutation(n, b)[k];
        RotateIdEmbeds(n, a, k);
        RotateIdEmbeds(n, b, k);
      }
      AxesFromPoints(n, a, b);
    }
  }

  datatype Rotation = Rotation(index: nat, matrix: Matrix, points: seq<nat>)

  datatype Family = RotationFamily(rotations: seq<Rotation>) | FamilyError

  /** All rotations: one entry per matrix, numbered in order, and the count of 24 is always met. */
  method BuildRotations(n: nat) returns (r: Family)
    requires n >= 2
    ensures r.RotationFamily? && |r.rotations| == 24
    ensures forall i :: 0 <= i < 24 ==> r.rotations[i].index == i && IsRotation(r.rotations[i].matrix)
                                        && r.rotations[i].points == Permutation(n, r.rotations[i].matrix)
    ensures forall m :: IsRotation(m) ==> exists i :: 0 <= i < 24 && r.rotations[i].matrix == m
    ensures forall i, j :: 0 <= i < j < 24 ==> r.rotations[i].points != r.rotations[j].points
  {
    hide IsRotation, Permutation;
    var matrices := RotationMatrices();
    if matrices.WrongCount? {
      return FamilyError;
    }
    var ms := matrices.matrices;
    var result: seq<Rotation> := [];
    var seen: set<seq<nat>> := {};
    for i := 0 to |ms|
      invariant Listed(n, ms, result, i)
      invariant forall pi :: pi in seen <==> exists j :: 0 <= j < i && result[j].points == pi
    {
      assert ms[i] in ms;
      var mapped := BuildRotation(n, ms[i]);
      if mapped.Mismatch? {
        return FamilyError;
      }
      NewPermutation(n, ms, result, i);
      if mapped.points !in seen {
        seen := seen + {mapped.points};
        result := result + [Rotation(|result|, ms[i], mapped.points)];
      }
    }
    if |result| != 24 {
      return FamilyError;
    }
    assert forall m :: IsRotation(m) ==> m in ms;
    return RotationFamily(result);
  }

  ghost predicate Listed(n: nat, ms: seq<Matrix>, result: seq<Rotation>, i: nat)
    requires n >= 2
  {
    && |result| == i <= |ms|
    && (forall j :: 0 <= j < i ==> result[j].index == j && result[j].matrix == ms[j] && IsRotation(ms[j]) && result[j].points == Permutation(n, ms[j]))
    && (forall j, k :: 0 <= j < k < i ==> result[j].points != result[k].points)
  }

  lemma NewPermutation(n: nat, ms: seq<Matrix>, result: seq<Rotation>, i: nat)
    requires n >= 2 && Listed(n, ms, result, i) && i < |ms| && IsRotation(ms[i])
    requires forall k, l :: 0 <= k < l < |ms| ==> ms[k] != ms[l]
    ensures forall j :: 0 <= j < i ==> result[j].points != Permutation(n, ms[i])
  {
    hide IsRotation, Permutation;
    forall j | 0 <= j < i ensures result[j].points != Permutation(n, ms[i]) {
      PermutationsDiffer(n, ms[j], ms[i]);
    }
  }
}
