/** The rest of the cube build: physical corners, point records and distances, and what the validation counts. */
module CubeCorners {
  import opened Options
  import opened Topology
  import opened CubeGeometry
  import opened CubeTopology
  import opened CubeBuild
  import opened CubeSurface
  import opened Distances
  import opened CubeDistances

  // ----- the eight physical corners -----

  function FaceCorner(n: nat, f: Face, bottom: bool, right: bool): Place {
    Place(f, if bottom then n - 1 else 0, if right then n - 1 else 0)
  }

  function Sign(positive: bool): int { if positive then 1 else -1 }

  /** The corners of the cube in the order their coordinates sort. */
  function CubeCorner(i: nat): Vec { Vec(Sign(i >= 4), Sign(i / 2 % 2 == 1), Sign(i % 2 == 1)) }

  function CornerNumber(v: Vec): (i: nat)
    ensures i < 8
  {
    (if v.x > 0 then 4 else 0) + (if v.y > 0 then 2 else 0) + (if v.z > 0 then 1 else 0)
  }

  lemma CornerNumbered(i: nat)
    requires i < 8
    ensures CornerNumber(CubeCorner(i)) == i
  {
  }

  /** The number of the cube corner a face corner sits at. */
  function Sits(f: Face, bottom: bool, right: bool): nat {
    match f
    case Front => 1 + (if right then 4 else 0) + (if bottom then 2 else 0)
    case Back => (if right then 0 else 4) + (if bottom then 2 else 0)
    case Left => (if bottom then 2 else 0) + (if right then 1 else 0)
    case Right => 4 + (if bottom then 2 else 0) + (if right then 0 else 1)
    case Top => (if right then 4 else 0) + (if bottom then 1 else 0)
    case Bottom => 2 + (if right then 4 else 0) + (if bottom then 0 else 1)
  }

  lemma CornerSits(n: nat, f: Face, bottom: bool, right: bool)
    requires n >= 2
    ensures var v := CornerVector(n, FaceCorner(n, f, bottom, right));
      CornerNumber(v) == Sits(f, bottom, right) < 8 && v == CubeCorner(Sits(f, bottom, right))
  {
    hide FrameOf, Add, Scale, CornerVector;
    CornerSigns(n, f, bottom, right);
    SignsSit(f, bottom, right);
  }

  lemma CornerSigns(n: nat, f: Face, bottom: bool, right: bool)
    requires n >= 2
    ensures CornerVector(n, FaceCorner(n, f, bottom, right)) == SignedCorner(f, Sign(bottom), Sign(right))
  {
    hide FrameOf, Add, Scale, SignedCorner;
    SignedIs(f, Sign(bottom), Sign(right));
  }

  lemma SignedIs(f: Face, u: int, v: int)
    ensures Add(FrameOf(f).normal, Add(Scale(u, FrameOf(f).rowAxis), Scale(v, FrameOf(f).colAxis))) == SignedCorner(f, u, v)
  {
    match f { case Front => case Back => case Left => case Right => case Top => case Bottom => }
  }

  lemma SignsSit(f: Face, bottom: bool, right: bool)
    ensures var v := SignedCorner(f, Sign(bottom), Sign(right));
      CornerNumber(v) == Sits(f, bottom, right) < 8 && v == CubeCorner(Sits(f, bottom, right))
  {
    match f { case Front => case Back => case Left => case Right => case Top => case Bottom => }
  }

  /** A corner vector written out face by face. */
  function SignedCorner(f: Face, u: int, v: int): Vec {
    match f
    case Front => Vec(v, u, 1)
    case Back => Vec(-v, u, -1)
    case Left => Vec(-1, u, v)
    case Right => Vec(1, u, -v)
    case Top => Vec(v, -1, u)
    case Bottom => Vec(v, 1, -u)
  }

  function CornerId(n: nat, f: Face, bottom: bool, right: bool): (id: nat)
    requires n >= 2
    ensures id < PointCount(n) && PlaceOf(n, id) == FaceCorner(n, f, bottom, right)
  {
    PlaceOfPointId(n, FaceCorner(n, f, bottom, right));
    PointId(n, FaceCorner(n, f, bottom, right))
  }

  /** The face corners are these 24 points. */
  lemma CornerIdsAre(n: nat, p: nat)
    requires n >= 2
    ensures p in CornerIds(n) <==> exists f, bottom, right :: CornerId(n, f, bottom, right) == p
  {
    hide PlaceOf;
    if p in CornerIds(n) {
      var place := PlaceOf(n, p);
      SamePlace(n, CornerId(n, place.face, place.row != 0, place.col != 0), p);
    }
  }

  function One(taken: bool, id: nat): seq<nat> { if taken then [id] else [] }

  /** The corners of one face that sit at cube corner i, in row order. */
  function OnFace(n: nat, i: nat, f: Face): seq<nat>
    requires n >= 2
  {
    One(Sits(f, false, false) == i, CornerId(n, f, false, false)) + One(Sits(f, false, true) == i, CornerId(n, f, false, true))
    + One(Sits(f, true, false) == i, CornerId(n, f, true, false)) + One(Sits(f, true, true) == i, CornerId(n, f, true, true))
  }

  /** Does this face touch cube corner i? */
  predicate Meets(f: Face, i: nat) {
    match f
    case Front => i % 2 == 1
    case Back => i % 2 == 0
    case Left => i < 4
    case Right => i >= 4
    case Top => i / 2 % 2 == 0
    case Bottom => i / 2 % 2 == 1
  }

  lemma OnFaceIs(n: nat, i: nat, f: Face)
    requires n >= 2 && i < 8
    ensures |OnFace(n, i, f)| == if Meets(f, i) then 1 else 0
    ensures forall p :: p in OnFace(n, i, f) ==> PlaceOf(n, p).face == f
    ensures forall p :: p in OnFace(n, i, f) <==> exists bottom, right :: Sits(f, bottom, right) == i && CornerId(n, f, bottom, right) == p
  {
    hide PlaceOf, CornerId;
    match f { case Front => case Back => case Left => case Right => case Top => case Bottom => }
  }

  /** The corners of the first k faces that sit at cube corner i. */
  function Sitting(n: nat, i: nat, k: nat): seq<nat>
    requires n >= 2 && k <= 6
  {
    if k == 0 then [] else Sitting(n, i, k - 1) + OnFace(n, i, FACES[k - 1])
  }

  lemma {:induction false} SittingAre(n: nat, i: nat, k: nat)
    requires n >= 2 && i < 8 && k <= 6
    ensures forall p :: p in Sitting(n, i, k) <==> exists f, bottom, right :: Rank(f) < k && Sits(f, bottom, right) == i && CornerId(n, f, bottom, right) == p
    ensures forall p :: p in Sitting(n, i, k) ==> Rank(PlaceOf(n, p).face) < k
    ensures forall a, b :: 0 <= a < b < |Sitting(n, i, k)| ==> Sitting(n, i, k)[a] != Sitting(n, i, k)[b]
  {
    hide PlaceOf, CornerId, OnFace, Sits;
    if k > 0 {
      SittingAre(n, i, k - 1);
      OnFaceIs(n, i, FACES[k - 1]);
      RankOfFace(k - 1);
      var before, added := Sitting(n, i, k - 1), OnFace(n, i, FACES[k - 1]);
      forall p ensures p in Sitting(n, i, k) <==> exists f, bottom, right :: Rank(f) < k && Sits(f, bottom, right) == i && CornerId(n, f, bottom, right) == p {
        forall f | Rank(f) < k ensures Rank(f) < k - 1 || f == FACES[k - 1] {
        }
      }
      forall a, b | 0 <= a < b < |before + added| ensures (before + added)[a] != (before + added)[b] {
        if b >= |before| {
          assert (before + added)[b] in added && (before + added)[a] in before;
        }
      }
    }
  }

  lemma ThreeSit(n: nat, i: nat)
    requires n >= 2 && i < 8
    ensures |Sitting(n, i, 6)| == 3
  {
    hide OnFace;
    forall k | 0 <= k < 6 ensures |Sitting(n, i, k + 1)| == |Sitting(n, i, k)| + if Meets(FACES[k], i) then 1 else 0 {
      OnFaceIs(n, i, FACES[k]);
    }
    assert |Sitting(n, i, 2)| == |Sitting(n, i, 1 + 1)| == 1;
    assert |Sitting(n, i, 4)| == |Sitting(n, i, 3 + 1)| == 2;
    assert |Sitting(n, i, 6)| == |Sitting(n, i, 5 + 1)|;
  }

  /** The physical corners: eight of three different points each, the face corners at that corner of the cube. */
  ghost predicate ArePhysicalCorners(n: nat, corners: seq<seq<nat>>)
    requires n >= 2
  {
    |corners| == 8 && forall i :: 0 <= i < 8 ==> IsPhysicalCorner(n, i, corners[i])
  }

  ghost predicate IsPhysicalCorner(n: nat, i: nat, points: seq<nat>)
    requires n >= 2
  {
    && |points| == 3 && points[0] != points[1] && points[0] != points[2] && points[1] != points[2]
    && forall p: nat :: p in points <==> p in CornerIds(n) && CornerVector(n, PlaceOf(n, p)) == CubeCorner(i)
  }

  lemma SittingIsCorner(n: nat, i: nat)
    requires n >= 2 && i < 8
    ensures IsPhysicalCorner(n, i, Sitting(n, i, 6))
  {
    hide PlaceOf, CornerVector, CornerId, Sitting, Sits, CubeCorner, FaceCorner, IsCorner;
    ThreeSit(n, i);
    SittingAre(n, i, 6);
    forall p: nat ensures p in Sitting(n, i, 6) <==> p in CornerIds(n) && CornerVector(n, PlaceOf(n, p)) == CubeCorner(i) {
      CornerIdsAre(n, p);
      forall f, bottom, right | CornerId(n, f, bottom, right) == p
        ensures p in CornerIds(n) && (Sits(f, bottom, right) == i <==> CornerVector(n, PlaceOf(n, p)) == CubeCorner(i))
      {
        CornerSits(n, f, bottom, right);
        CornerNumbered(i);
      }
    }
  }

  /** The loop over the faces and their four corners, each filed under the corner of the cube it sits at. */
  method PhysicalCorners(n: nat) returns (corners: seq<seq<nat>>)
    requires n >= 2
    ensures ArePhysicalCorners(n, corners)
  {
    hide CornerId, IsPhysicalCorner, OnFace;
    var buckets := new seq<nat>[8](_ => []);
    for k := 0 to 6
      invariant forall i :: 0 <= i < 8 ==> buckets[i] == Sitting(n, i, k)
    {
      FileFace(n, buckets, FACES[k]);
    }
    corners := buckets[..];
    forall i | 0 <= i < 8 ensures IsPhysicalCorner(n, i, corners[i]) {
      SittingIsCorner(n, i);
    }
  }

  method FileFace(n: nat, buckets: array<seq<nat>>, f: Face)
    requires n >= 2 && buckets.Length == 8
    modifies buckets
    ensures forall i :: 0 <= i < 8 ==> buckets[i] == old(buckets[i]) + OnFace(n, i, f)
  {
    hide CornerId, Sits, One;
    FileCorner(n, buckets, f, false, false);
    FileCorner(n, buckets, f, false, true);
    FileCorner(n, buckets, f, true, false);
    FileCorner(n, buckets, f, true, true);
  }

  method FileCorner(n: nat, buckets: array<seq<nat>>, f: Face, bottom: bool, right: bool)
    requires n >= 2 && buckets.Length == 8
    modifies buckets
    ensures forall i :: 0 <= i < 8 ==> buckets[i] == old(buckets[i]) + One(Sits(f, bottom, right) == i, CornerId(n, f, bottom, right))
  {
    hide CornerVector, CornerId, CornerNumber, Sits;
    CornerSits(n, f, bottom, right);
    var i := CornerNumber(CornerVector(n, FaceCorner(n, f, bottom, right)));
    buckets[i] := buckets[i] + [CornerId(n, f, bottom, right)];
  }

  // ----- the two source lists -----

  method CornerSources(n: nat, corners: seq<seq<nat>>) returns (sources: seq<nat>)
    requires n >= 2 && ArePhysicalCorners(n, corners)
    ensures SourceSet(sources) == CornerIds(n)
  {
    hide CornerVector, CubeCorner, PlaceOf;
    sources := [];
    for i := 0 to 8
      invariant forall p: nat :: p in sources <==> exists j :: 0 <= j < i && p in corners[j]
    {
      assert IsPhysicalCorner(n, i, corners[i]);
      sources := sources + corners[i];
    }
    forall p: nat ensures p in sources <==> p in CornerIds(n) {
      if p in CornerIds(n) {
        SitsSomewhere(n, p);
        var i :| 0 <= i < 8 && CornerVector(n, PlaceOf(n, p)) == CubeCorner(i);
        assert IsPhysicalCorner(n, i, corners[i]);
      }
      if p in sources {
        var j :| 0 <= j < 8 && p in corners[j];
        assert IsPhysicalCorner(n, j, corners[j]);
      }
    }
    assert forall p: nat :: p in SourceSet(sources) <==> p in sources;
  }

  lemma SitsSomewhere(n: nat, p: nat)
    requires n >= 2 && p in CornerIds(n)
    ensures exists i :: 0 <= i < 8 && CornerVector(n, PlaceOf(n, p)) == CubeCorner(i)
  {
    hide CornerVector, CubeCorner, PlaceOf, CornerId, Sits, CornerNumber;
    CornerIdsAre(n, p);
    var f, bottom, right :| CornerId(n, f, bottom, right) == p;
    CornerSits(n, f, bottom, right);
  }

  method SeamSources(n: nat, rel: seq<seq<Relation>>) returns (sources: seq<nat>)
    ensures SourceSet(sources) == SeamIds(n, rel)
  {
    sources := [];
    for p := 0 to |rel|
      invariant forall q: nat :: q in sources <==> q < p && CrossFaceSeam in rel[q]
    {
      if CrossFaceSeam in rel[p] {
        sources := sources + [p];
      }
    }
    assert forall p: nat :: p in SourceSet(sources) <==> p in sources;
  }

  // ----- geometry classes and how many points each has -----

  datatype Class = CornerClass | EdgeClass | InteriorClass

  function ClassOf(n: nat, p: Place): Class {
    if IsCorner(n, p) then CornerClass else if OnSomeEdge(n, p) then EdgeClass else InteriorClass
  }

  /** Points of a class among the first k. */
  function ClassCount(n: nat, kind: Class, k: nat): nat
    requires n >= 2 && k <= PointCount(n)
  {
    if k == 0 then 0 else ClassCount(n, kind, k - 1) + if ClassOf(n, PlaceOf(n, k - 1)) == kind then 1 else 0
  }

  /** End positions among the first c of a row or column. */
  function Ends(n: nat, c: nat): nat { (if c >= 1 then 1 else 0) + (if c >= n then 1 else 0) }

  /** Points of a class among the first c of a row. */
  function InRow(n: nat, row: nat, c: nat, kind: Class): int {
    var atEnd := row == 0 || row == n - 1;
    match kind
    case CornerClass => if atEnd then Ends(n, c) else 0
    case EdgeClass => if atEnd then c - Ends(n, c) else Ends(n, c)
    case InteriorClass => if atEnd then 0 else c - Ends(n, c)
  }

  function InRows(n: nat, rows: nat, kind: Class): int {
    match kind
    case CornerClass => 2 * Ends(n, rows)
    case EdgeClass => Ends(n, rows) * (n - 2) + 2 * (rows - Ends(n, rows))
    case InteriorClass => (rows - Ends(n, rows)) * (n - 2)
  }

  lemma {:induction false} CountRow(n: nat, f: nat, row: nat, c: nat, kind: Class)
    requires n >= 2 && f < 6 && row < n && c <= n
    ensures var start := f * (n * n) + row * n;
      0 <= start <= start + c <= PointCount(n) && ClassCount(n, kind, start + c) == ClassCount(n, kind, start) + InRow(n, row, c, kind)
  {
    hide PlaceOf;
    RowStart(n, f, row);
    if c > 0 {
      CountRow(n, f, row, c - 1, kind);
      var p := Place(FACES[f], row, c - 1);
      RankOfFace(f);
      PlaceOfPointId(n, p);
      assert PointId(n, p) == f * (n * n) + row * n + c - 1;
    }
  }

  lemma RowStart(n: nat, f: nat, row: nat)
    requires n >= 2 && f < 6 && row < n
    ensures 0 <= f * (n * n) + row * n && f * (n * n) + row * n + n <= PointCount(n)
  {
    MultipleGrows(row + 1, n, n);
    MultipleGrows(f + 1, 6, n * n);
    assert (row + 1) * n == row * n + n && (f + 1) * (n * n) == f * (n * n) + n * n && 6 * (n * n) == PointCount(n);
  }

  lemma {:induction false} CountRows(n: nat, f: nat, rows: nat, kind: Class)
    requires n >= 2 && f < 6 && rows <= n
    ensures var start := f * (n * n);
      0 <= start <= start + rows * n <= PointCount(n) && ClassCount(n, kind, start + rows * n) == ClassCount(n, kind, start) + InRows(n, rows, kind)
  {
    hide ClassCount;
    if rows == 0 {
      RowStart(n, f, 0);
    } else {
      CountRows(n, f, rows - 1, kind);
      CountRow(n, f, rows - 1, n, kind);
      OneMoreRow(n, rows, kind);
      assert rows * n == (rows - 1) * n + n;
    }
  }

  lemma OneMoreRow(n: nat, rows: nat, kind: Class)
    requires n >= 2 && 0 < rows <= n
    ensures InRows(n, rows, kind) == InRows(n, rows - 1, kind) + InRow(n, rows - 1, n, kind)
  {
    var e, e' := Ends(n, rows - 1), Ends(n, rows);
    assert e' * (n - 2) == e * (n - 2) + (e' - e) * (n - 2);
    assert (rows - e') * (n - 2) == (rows - 1 - e) * (n - 2) + (1 - (e' - e)) * (n - 2);
  }

  lemma {:induction false} CountFaces(n: nat, faces: nat, kind: Class)
    requires n >= 2 && faces <= 6
    ensures 0 <= faces * (n * n) <= PointCount(n) && ClassCount(n, kind, faces * (n * n)) == faces * InRows(n, n, kind)
  {
    hide ClassCount, InRows;
    if faces == 0 {
      NothingCounted(n, kind);
    } else {
      CountFaces(n, faces - 1, kind);
      CountRows(n, faces - 1, n, kind);
      assert faces * (n * n) == (faces - 1) * (n * n) + n * n;
      assert faces * InRows(n, n, kind) == (faces - 1) * InRows(n, n, kind) + InRows(n, n, kind);
    }
  }

  lemma NothingCounted(n: nat, kind: Class)
    requires n >= 2
    ensures ClassCount(n, kind, 0) == 0
  {
  }

  /** For every n: 24 corner points, 24 (n - 2) edge points, 6 (n - 2)^2 interior points. */
  lemma ClassCounts(n: nat)
    requires n >= 2
    ensures ClassCount(n, CornerClass, PointCount(n)) == 24
    ensures ClassCount(n, EdgeClass, PointCount(n)) == 24 * (n - 2)
    ensures ClassCount(n, InteriorClass, PointCount(n)) == 6 * ((n - 2) * (n - 2))
  {
    hide ClassCount;
    CountFaces(n, 6, CornerClass);
    CountFaces(n, 6, EdgeClass);
    CountFaces(n, 6, InteriorClass);
    assert 6 * (n * n) == PointCount(n);
  }

  // ----- the whole build -----

  datatype Point = Point(place: Place, kind: Class, corner: Option<nat>, sides: seq<Edge>, crosses: bool, cornerDistance: int, seamDistance: int)

  function SideNumber(e: Edge): nat {
    match e case TopEdge => 0 case RightEdge => 1 case BottomEdge => 2 case LeftEdge => 3
  }

  /** The sides of its face a point lies on, clockwise from the top, each once. */
  function SidesOf(n: nat, p: Place): (sides: seq<Edge>)
    ensures forall e :: e in sides <==> OnEdge(n, p, e)
    ensures forall i, j :: 0 <= i < j < |sides| ==> SideNumber(sides[i]) < SideNumber(sides[j])
  {
    (if p.row == 0 then [TopEdge] else []) + (if p.col == n - 1 then [RightEdge] else [])
    + (if p.row == n - 1 then [BottomEdge] else []) + (if p.col == 0 then [LeftEdge] else [])
  }

  /** The record of a point, in closed form. */
  function PointOf(n: nat, p: Place): Point {
    Point(p, ClassOf(n, p), if IsCorner(n, p) then Some(CornerNumber(CornerVector(n, p))) else None, SidesOf(n, p), OnSomeEdge(n, p),
          CornerForm(n, p), SeamForm(n, p))
  }

  datatype Cube = Cube(adjacency: Adjacency, relations: seq<seq<Relation>>, corners: seq<seq<nat>>, points: seq<Point>)

  datatype Outcome = Built(cube: Cube) | ConflictingRelation | Disconnected

  /** What the build promises for every size. */
  ghost predicate IsCube(n: nat, cube: Cube)
    requires n >= 2
  {
    && IsCubeGraph(n, cube.adjacency, cube.relations) && ArePhysicalCorners(n, cube.corners)
    && |cube.points| == PointCount(n) && forall p :: 0 <= p < PointCount(n) ==> cube.points[p] == PointOf(n, PlaceOf(n, p))
  }

  /** The build from seams to point records; neither of its errors can occur. */
  method BuildCube(n: nat) returns (r: Outcome)
    requires n >= 2
    ensures r.Built? && IsCube(n, r.cube)
  {
    hide CornerForms, SeamForms, ArePhysicalCorners, IsCubeGraph, CornerIds, SeamIds;
    var corners := PhysicalCorners(n);
    var graph := BuildTopology(n);
    if graph.ConflictingRelation? {
      return Outcome.ConflictingRelation;
    }
    var cornerSources := CornerSources(n, corners);
    var seamSources := SeamSources(n, graph.relations);
    var corner, seam := CubeDistancesOf(n, graph.adjacency, graph.relations, cornerSources, seamSources);
    if corner.Disconnected? || seam.Disconnected? {
      return Outcome.Disconnected;
    }
    var points := BuildPoints(n, graph.adjacency, graph.relations, corner.d, seam.d);
    return Built(Cube(graph.adjacency, graph.relations, corners, points));
  }

  method BuildPoints(n: nat, adj: Adjacency, rel: seq<seq<Relation>>, corner: seq<int>, seam: seq<int>) returns (points: seq<Point>)
    requires n >= 2 && IsCubeGraph(n, adj, rel) && corner == CornerForms(n) && seam == SeamForms(n)
    ensures |points| == PointCount(n) && forall p :: 0 <= p < PointCount(n) ==> points[p] == PointOf(n, PlaceOf(n, p))
  {
    hide PlaceOf, CornerVector, CornerNumber, NearIds, Label;
    points := [];
    for p := 0 to PointCount(n)
      invariant |points| == p && forall q :: 0 <= q < p ==> points[q] == PointOf(n, PlaceOf(n, q))
    {
      var place := PlaceOf(n, p);
      SeamIdsAre(n, adj, rel, p);
      var number := if IsCorner(n, place) then Some(CornerNumber(CornerVector(n, place))) else None;
      points := points + [Point(place, ClassOf(n, place), number, SidesOf(n, place), CrossFaceSeam in rel[p], corner[p], seam[p])];
    }
  }

  // ----- the validation -----

  /** Points of each class, counted as the validation counts them. */
  method CountClasses(n: nat, points: seq<Point>) returns (corner: nat, edge: nat, interior: nat)
    requires n >= 2 && |points| == PointCount(n) && forall p :: 0 <= p < PointCount(n) ==> points[p].kind == ClassOf(n, PlaceOf(n, p))
    ensures corner == 24 && edge == 24 * (n - 2) && interior == 6 * ((n - 2) * (n - 2))
  {
    hide PlaceOf, ClassOf;
    corner, edge, interior := 0, 0, 0;
    for k := 0 to |points|
      invariant corner == ClassCount(n, CornerClass, k) && edge == ClassCount(n, EdgeClass, k) && interior == ClassCount(n, InteriorClass, k)
    {
      match points[k].kind {
        case CornerClass => corner := corner + 1;
        case EdgeClass => edge := edge + 1;
        case InteriorClass => interior := interior + 1;
      }
    }
    ClassCounts(n);
  }

  /** Nothing the validation of a finished cube looks at is ever wrong. */
  lemma ValidationPasses(n: nat, cube: Cube)
    requires n >= 2 && IsCube(n, cube)
    ensures WellFormed(cube.adjacency)
    ensures forall p :: 0 <= p < PointCount(n) ==> |cube.adjacency[p]| == |cube.relations[p]| == 4
    ensures |SeamEdgesOf(n, cube.adjacency)| == 2 * (12 * n)
    ensures |cube.corners| == 8 && forall i :: 0 <= i < 8 ==> IsPhysicalCorner(n, i, cube.corners[i])
    ensures forall p: nat :: p < PointCount(n) ==> (cube.points[p].kind == CornerClass <==> exists i :: 0 <= i < 8 && p in cube.corners[i])
    ensures forall a: nat, b: nat :: a < PointCount(n) && b < PointCount(n) ==> Linked(cube.adjacency, UpTo(|cube.adjacency|), a, b)
  {
    hide IsCubeGraph, PlaceOf, SeamEdgesOf, Linked, CornerVector, CubeCorner, WellFormed, UpTo;
    CubeGraphValid(n, cube.adjacency, cube.relations);
    SeamEdgeCount(n, cube.adjacency, cube.relations);
    GraphSize(n, cube);
    forall p: nat | p < PointCount(n) ensures cube.points[p].kind == CornerClass <==> exists i :: 0 <= i < 8 && p in cube.corners[i] {
      if p in CornerIds(n) {
        SitsSomewhere(n, p);
        var i :| 0 <= i < 8 && CornerVector(n, PlaceOf(n, p)) == CubeCorner(i);
        assert IsPhysicalCorner(n, i, cube.corners[i]);
      }
      forall i | 0 <= i < 8 && p in cube.corners[i] ensures p in CornerIds(n) {
        assert IsPhysicalCorner(n, i, cube.corners[i]);
      }
    }
    forall a: nat, b: nat | a < PointCount(n) && b < PointCount(n) ensures Linked(cube.adjacency, UpTo(|cube.adjacency|), a, b) {
      CubeConnected(n, cube.adjacency, cube.relations, a, b);
    }
  }

  lemma GraphSize(n: nat, cube: Cube)
    requires n >= 2 && IsCubeGraph(n, cube.adjacency, cube.relations)
    ensures |cube.adjacency| == |cube.relations| == PointCount(n)
  {
  }

  /** What the record of a point says: where it is, which physical corner it belongs to, the sides it lies on, whether a
      seam starts there, its class, and how far it is along the graph to the nearest corner and to the nearest seam. */
  lemma PointTells(n: nat, cube: Cube, p: nat)
    requires n >= 2 && IsCube(n, cube) && p < PointCount(n)
    ensures var x := cube.points[p];
      && OnCube(n, x.place) && PointId(n, x.place) == p
      && (forall i: nat :: x.corner == Some(i) <==> i < 8 && p in cube.corners[i])
      && (forall e :: e in x.sides <==> OnEdge(n, x.place, e))
      && (x.crosses <==> CrossFaceSeam in cube.relations[p])
      && (x.kind == CornerClass <==> x.corner.Some?) && (x.kind == EdgeClass <==> x.corner.None? && x.crosses)
      && x.cornerDistance >= 0 && x.seamDistance >= 0
      && IsDistance(cube.adjacency, (set q: nat | q < PointCount(n) && cube.points[q].corner.Some?), p, x.cornerDistance)
      && IsDistance(cube.adjacency, (set q: nat | q < PointCount(n) && CrossFaceSeam in cube.relations[q]), p, x.seamDistance)
  {
    hide IsCubeGraph, PlaceOf, CornerVector, CubeCorner, CornerNumber, CornerForm, SeamForm, IsDistance, IsPhysicalCorner, SidesOf;
    GraphSize(n, cube);
    CornerDistance(n, cube.adjacency, cube.relations, p);
    SeamDistance(n, cube.adjacency, cube.relations, p);
    SeamIdsAre(n, cube.adjacency, cube.relations, p);
    NumberIsCorner(n, cube, p);
    assert CornerIds(n) == set q: nat | q < PointCount(n) && cube.points[q].corner.Some?;
    assert SeamIds(n, cube.relations) == set q: nat | q < PointCount(n) && CrossFaceSeam in cube.relations[q];
  }

  lemma NumberIsCorner(n: nat, cube: Cube, p: nat)
    requires n >= 2 && IsCube(n, cube) && p < PointCount(n)
    ensures forall i: nat :: cube.points[p].corner == Some(i) <==> i < 8 && p in cube.corners[i]
  {
    hide IsCubeGraph, PlaceOf, CornerVector, CubeCorner, CornerNumber, CornerForm, SeamForm, SidesOf, ClassOf;
    forall i: nat ensures cube.points[p].corner == Some(i) <==> i < 8 && p in cube.corners[i] {
      if i < 8 {
        assert IsPhysicalCorner(n, i, cube.corners[i]);
        CornerNumbered(i);
      }
      if p in CornerIds(n) {
        SitsSomewhere(n, p);
        var j :| 0 <= j < 8 && CornerVector(n, PlaceOf(n, p)) == CubeCorner(j);
        CornerNumbered(j);
      }
    }
  }
}
