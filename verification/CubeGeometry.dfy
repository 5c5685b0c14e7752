/** The cube surface: face frames, the seams derived from them, and the embedding that explains both. */
module CubeGeometry {

  datatype Vec = Vec(x: int, y: int, z: int)

  function Neg(v: Vec): Vec { Vec(-v.x, -v.y, -v.z) }
  function Add(u: Vec, v: Vec): Vec { Vec(u.x + v.x, u.y + v.y, u.z + v.z) }
  function Sub(u: Vec, v: Vec): Vec { Vec(u.x - v.x, u.y - v.y, u.z - v.z) }
  function Scale(k: int, v: Vec): Vec { Vec(k * v.x, k * v.y, k * v.z) }
  function Dot(u: Vec, v: Vec): int { u.x * v.x + u.y * v.y + u.z * v.z }

  datatype Face = Front | Back | Left | Right | Top | Bottom
  datatype Edge = TopEdge | RightEdge | BottomEdge | LeftEdge
  datatype Frame = Frame(normal: Vec, rowAxis: Vec, colAxis: Vec)

  const FACES: seq<Face> := [Front, Back, Left, Right, Top, Bottom]
  const EDGES: seq<Edge> := [TopEdge, RightEdge, BottomEdge, LeftEdge]

  function FrameOf(f: Face): Frame {
    match f
    case Front => Frame(Vec(0, 0, 1), Vec(0, 1, 0), Vec(1, 0, 0))
    case Back => Frame(Vec(0, 0, -1), Vec(0, 1, 0), Vec(-1, 0, 0))
    case Left => Frame(Vec(-1, 0, 0), Vec(0, 1, 0), Vec(0, 0, 1))
    case Right => Frame(Vec(1, 0, 0), Vec(0, 1, 0), Vec(0, 0, -1))
    case Top => Frame(Vec(0, -1, 0), Vec(0, 0, 1), Vec(1, 0, 0))
    case Bottom => Frame(Vec(0, 1, 0), Vec(0, 0, -1), Vec(1, 0, 0))
  }

  function Rank(f: Face): (r: nat)
    ensures r < 6 && FACES[r] == f
  {
    match f case Front => 0 case Back => 1 case Left => 2 case Right => 3 case Top => 4 case Bottom => 5
  }

  function EdgeRank(e: Edge): (r: nat)
    ensures r < 4 && EDGES[r] == e
  {
    match e case TopEdge => 0 case RightEdge => 1 case BottomEdge => 2 case LeftEdge => 3
  }

  datatype Place = Place(face: Face, row: int, col: int)

  predicate OnCube(n: nat, p: Place) {
    0 <= p.row < n && 0 <= p.col < n
  }

  // ----- seams, as the frames define them -----

  function EdgeOutward(f: Frame, e: Edge): Vec {
    match e
    case TopEdge => Neg(f.rowAxis)
    case RightEdge => f.colAxis
    case BottomEdge => f.rowAxis
    case LeftEdge => Neg(f.colAxis)
  }

  function EdgeTangent(f: Frame, e: Edge): Vec {
    if e == TopEdge || e == BottomEdge then f.colAxis else f.rowAxis
  }

  function EdgePoint(n: nat, f: Face, e: Edge, i: int): Place {
    match e
    case TopEdge => Place(f, 0, i)
    case RightEdge => Place(f, i, n - 1)
    case BottomEdge => Place(f, n - 1, i)
    case LeftEdge => Place(f, i, 0)
  }

  datatype Seam = Seam(face: Face, edge: Edge, face': Face, edge': Edge, reversed: bool)

  /** The face whose normal is this vector: the first match over the frames, as the search finds it. */
  function FaceWithNormal(v: Vec): Face {
    if v == Vec(0, 0, 1) then Front else if v == Vec(0, 0, -1) then Back else if v == Vec(-1, 0, 0) then Left
    else if v == Vec(1, 0, 0) then Right else if v == Vec(0, -1, 0) then Top else Bottom
  }

  /** The first edge of the frame that points outward along this vector. */
  function TargetEdge(f: Frame, outward: Vec): Edge {
    if EdgeOutward(f, TopEdge) == outward then TopEdge
    else if EdgeOutward(f, RightEdge) == outward then RightEdge
    else if EdgeOutward(f, BottomEdge) == outward then BottomEdge
    else LeftEdge
  }

  function DerivedSeam(f: Face, e: Edge): Seam {
    var source := FrameOf(f);
    var f' := FaceWithNormal(EdgeOutward(source, e));
    var e' := TargetEdge(FrameOf(f'), source.normal);
    Seam(f, e, f', e', EdgeTangent(FrameOf(f'), e') != EdgeTangent(source, e))
  }

  function Across(n: nat, s: Seam, i: int): Place {
    EdgePoint(n, s.face', s.edge', if s.reversed then n - 1 - i else i)
  }

  function Flip(s: Seam): Seam {
    Seam(s.face', s.edge', s.face, s.edge, s.reversed)
  }

  /** The seams written out face by face. */
  function SeamOf(f: Face, e: Edge): Seam {
    match f
    case Front => (match e
      case TopEdge => Seam(Front, TopEdge, Top, BottomEdge, false)
      case RightEdge => Seam(Front, RightEdge, Right, LeftEdge, false)
      case BottomEdge => Seam(Front, BottomEdge, Bottom, TopEdge, false)
      case LeftEdge => Seam(Front, LeftEdge, Left, RightEdge, false))
    case Back => (match e
      case TopEdge => Seam(Back, TopEdge, Top, TopEdge, true)
      case RightEdge => Seam(Back, RightEdge, Left, LeftEdge, false)
      case BottomEdge => Seam(Back, BottomEdge, Bottom, BottomEdge, true)
      case LeftEdge => Seam(Back, LeftEdge, Right, RightEdge, false))
    case Left => (match e
      case TopEdge => Seam(Left, TopEdge, Top, LeftEdge, false)
      case RightEdge => Seam(Left, RightEdge, Front, LeftEdge, false)
      case BottomEdge => Seam(Left, BottomEdge, Bottom, LeftEdge, true)
      case LeftEdge => Seam(Left, LeftEdge, Back, RightEdge, false))
    case Right => (match e
      case TopEdge => Seam(Right, TopEdge, Top, RightEdge, true)
      case RightEdge => Seam(Right, RightEdge, Back, LeftEdge, false)
      case BottomEdge => Seam(Right, BottomEdge, Bottom, RightEdge, false)
      case LeftEdge => Seam(Right, LeftEdge, Front, RightEdge, false))
    case Top => (match e
      case TopEdge => Seam(Top, TopEdge, Back, TopEdge, true)
      case RightEdge => Seam(Top, RightEdge, Right, TopEdge, true)
      case BottomEdge => Seam(Top, BottomEdge, Front, TopEdge, false)
      case LeftEdge => Seam(Top, LeftEdge, Left, TopEdge, false))
    case Bottom => (match e
      case TopEdge => Seam(Bottom, TopEdge, Front, BottomEdge, false)
      case RightEdge => Seam(Bottom, RightEdge, Right, BottomEdge, false)
      case BottomEdge => Seam(Bottom, BottomEdge, Back, BottomEdge, true)
      case LeftEdge => Seam(Bottom, LeftEdge, Left, BottomEdge, true))
  }

  lemma FaceFound(f: Face)
    ensures FaceWithNormal(FrameOf(f).normal) == f
  {
    match f { case Front => case Back => case Left => case Right => case Top => case Bottom => }
  }

  /** The four outward directions of a frame are different, so the target search is never ambiguous. */
  predicate FourWays(f: Frame) {
    && f.rowAxis != f.colAxis && f.rowAxis != Neg(f.colAxis)
    && f.rowAxis != Neg(f.rowAxis) && f.colAxis != Neg(f.colAxis) && Neg(f.rowAxis) != f.colAxis && Neg(f.rowAxis) != Neg(f.colAxis)
  }

  lemma FramesFourWays(f: Face)
    ensures FourWays(FrameOf(f))
  {
    match f { case Front => case Back => case Left => case Right => case Top => case Bottom => }
  }

  lemma EdgeFoundIn(f: Frame, e: Edge)
    requires FourWays(f)
    ensures TargetEdge(f, EdgeOutward(f, e)) == e
  {
    match e { case TopEdge => case RightEdge => case BottomEdge => case LeftEdge => }
  }

  lemma EdgeFound(f: Face, e: Edge)
    ensures TargetEdge(FrameOf(f), EdgeOutward(FrameOf(f), e)) == e
  {
    hide *;
    FramesFourWays(f);
    EdgeFoundIn(FrameOf(f), e);
  }

  lemma TableMeets(f: Face, e: Edge, s: Seam)
    requires s == SeamOf(f, e)
    ensures FrameOf(s.face').normal == EdgeOutward(FrameOf(f), e)
  {
    match f {
      case Front => match e { case TopEdge => case RightEdge => case BottomEdge => case LeftEdge => }
      case Back => match e { case TopEdge => case RightEdge => case BottomEdge => case LeftEdge => }
      case Left => match e { case TopEdge => case RightEdge => case BottomEdge => case LeftEdge => }
      case Right => match e { case TopEdge => case RightEdge => case BottomEdge => case LeftEdge => }
      case Top => match e { case TopEdge => case RightEdge => case BottomEdge => case LeftEdge => }
      case Bottom => match e { case TopEdge => case RightEdge => case BottomEdge => case LeftEdge => }
    }
  }

  lemma TableMeetsBack(f: Face, e: Edge, s: Seam)
    requires s == SeamOf(f, e)
    ensures EdgeOutward(FrameOf(s.face'), s.edge') == FrameOf(f).normal
  {
    match f {
      case Front => match e { case TopEdge => case RightEdge => case BottomEdge => case LeftEdge => }
      case Back => match e { case TopEdge => case RightEdge => case BottomEdge => case LeftEdge => }
      case Left => match e { case TopEdge => case RightEdge => case BottomEdge => case LeftEdge => }
      case Right => match e { case TopEdge => case RightEdge => case BottomEdge => case LeftEdge => }
      case Top => match e { case TopEdge => case RightEdge => case BottomEdge => case LeftEdge => }
      case Bottom => match e { case TopEdge => case RightEdge => case BottomEdge => case LeftEdge => }
    }
  }

  predicate TangentsAgree(f: Face, e: Edge, s: Seam) {
    EdgeTangent(FrameOf(s.face'), s.edge') ==
      if s.reversed then Neg(EdgeTangent(FrameOf(f), e)) else EdgeTangent(FrameOf(f), e)
  }

  lemma TableTangents(f: Face, e: Edge)
    ensures TangentsAgree(f, e, SeamOf(f, e))
  {
    match f {
      case Front => match e {
        case TopEdge => assert TangentsAgree(Front, TopEdge, SeamOf(Front, TopEdge));
        case RightEdge => assert TangentsAgree(Front, RightEdge, SeamOf(Front, RightEdge));
        case BottomEdge => assert TangentsAgree(Front, BottomEdge, SeamOf(Front, BottomEdge));
        case LeftEdge => assert TangentsAgree(Front, LeftEdge, SeamOf(Front, LeftEdge));
      }
      case Back => match e {
        case TopEdge => assert TangentsAgree(Back, TopEdge, SeamOf(Back, TopEdge));
        case RightEdge => assert TangentsAgree(Back, RightEdge, SeamOf(Back, RightEdge));
        case BottomEdge => assert TangentsAgree(Back, BottomEdge, SeamOf(Back, BottomEdge));
        case LeftEdge => assert TangentsAgree(Back, LeftEdge, SeamOf(Back, LeftEdge));
      }
      case Left => match e {
        case TopEdge => assert TangentsAgree(Left, TopEdge, SeamOf(Left, TopEdge));
        case RightEdge => assert TangentsAgree(Left, RightEdge, SeamOf(Left, RightEdge));
        case BottomEdge => assert TangentsAgree(Left, BottomEdge, SeamOf(Left, BottomEdge));
        case LeftEdge => assert TangentsAgree(Left, LeftEdge, SeamOf(Left, LeftEdge));
      }
      case Right => match e {
        case TopEdge => assert TangentsAgree(Right, TopEdge, SeamOf(Right, TopEdge));
        case RightEdge => assert TangentsAgree(Right, RightEdge, SeamOf(Right, RightEdge));
        case BottomEdge => assert TangentsAgree(Right, BottomEdge, SeamOf(Right, BottomEdge));
        case LeftEdge => assert TangentsAgree(Right, LeftEdge, SeamOf(Right, LeftEdge));
      }
      case Top => match e {
        case TopEdge => assert TangentsAgree(Top, TopEdge, SeamOf(Top, TopEdge));
        case RightEdge => assert TangentsAgree(Top, RightEdge, SeamOf(Top, RightEdge));
        case BottomEdge => assert TangentsAgree(Top, BottomEdge, SeamOf(Top, BottomEdge));
        case LeftEdge => assert TangentsAgree(Top, LeftEdge, SeamOf(Top, LeftEdge));
      }
      case Bottom => match e {
        case TopEdge => assert TangentsAgree(Bottom, TopEdge, SeamOf(Bottom, TopEdge));
        case RightEdge => assert TangentsAgree(Bottom, RightEdge, SeamOf(Bottom, RightEdge));
        case BottomEdge => assert TangentsAgree(Bottom, BottomEdge, SeamOf(Bottom, BottomEdge));
        case LeftEdge => assert TangentsAgree(Bottom, LeftEdge, SeamOf(Bottom, LeftEdge));
      }
    }
  }

  lemma TangentNotOpposite(f: Face, e: Edge)
    ensures EdgeTangent(FrameOf(f), e) != Neg(EdgeTangent(FrameOf(f), e))
  {
  }

  /** The searches over the frames find exactly the seams written out. */
  lemma SeamTable(f: Face, e: Edge)
    ensures DerivedSeam(f, e) == SeamOf(f, e)
  {
    hide FrameOf, SeamOf, EdgeOutward, EdgeTangent, FaceWithNormal, TargetEdge;
    var s := SeamOf(f, e);
    TableMeets(f, e, s);
    TableMeetsBack(f, e, s);
    FaceFound(s.face');
    EdgeFound(s.face', s.edge');
    TableTangents(f, e);
    TangentNotOpposite(f, e);
    FlipIsSeam(f, e);
  }

  lemma FlipIsSeam(f: Face, e: Edge)
    ensures SeamOf(SeamOf(f, e).face', SeamOf(f, e).edge') == Flip(SeamOf(f, e))
    ensures SeamOf(f, e).face == f && SeamOf(f, e).edge == e && SeamOf(f, e).face' != f
  {
    match f {
      case Front => match e { case TopEdge => case RightEdge => case BottomEdge => case LeftEdge => }
      case Back => match e { case TopEdge => case RightEdge => case BottomEdge => case LeftEdge => }
      case Left => match e { case TopEdge => case RightEdge => case BottomEdge => case LeftEdge => }
      case Right => match e { case TopEdge => case RightEdge => case BottomEdge => case LeftEdge => }
      case Top => match e { case TopEdge => case RightEdge => case BottomEdge => case LeftEdge => }
      case Bottom => match e { case TopEdge => case RightEdge => case BottomEdge => case LeftEdge => }
    }
  }

  /** The other side of a seam derives the same seam. */
  lemma SeamsMeet(f: Face, e: Edge, s: Seam)
    requires s == DerivedSeam(f, e)
    ensures DerivedSeam(s.face', s.edge') == Flip(s)
  {
    hide DerivedSeam, SeamOf;
    SeamTable(f, e);
    SeamTable(s.face', s.edge');
    FlipIsSeam(f, e);
  }

  // ----- the embedding -----

  /** Where a point sits: n out along the face normal, odd or even steps of two along the face axes. */
  function Embed(n: nat, p: Place): Vec {
    var f := FrameOf(p.face);
    Add(Scale(n, f.normal), Add(Scale(2 * p.row - (n - 1), f.rowAxis), Scale(2 * p.col - (n - 1), f.colAxis)))
  }

  /** The embedding written out face by face. */
  function Coords(n: int, p: Place): Vec {
    var u, v := 2 * p.row - (n - 1), 2 * p.col - (n - 1);
    match p.face
    case Front => Vec(v, u, n)
    case Back => Vec(-v, u, -n)
    case Left => Vec(-n, u, v)
    case Right => Vec(n, u, -v)
    case Top => Vec(v, -n, u)
    case Bottom => Vec(v, n, -u)
  }

  lemma EmbedIs(n: nat, p: Place)
    ensures Embed(n, p) == Coords(n, p)
  {
    match p.face { case Front => case Back => case Left => case Right => case Top => case Bottom => }
  }

  function Dist2(u: Vec, v: Vec): int {
    Dot(Sub(u, v), Sub(u, v))
  }

  /** The reference definition of the graph: surface points at squared distance 4 (same face) or 2 (across a seam). */
  predicate Near(n: nat, p: Place, q: Place) {
    Dist2(Embed(n, p), Embed(n, q)) == 2 || Dist2(Embed(n, p), Embed(n, q)) == 4
  }

  predicate OnEdge(n: nat, p: Place, e: Edge) {
    match e
    case TopEdge => p.row == 0
    case RightEdge => p.col == n - 1
    case BottomEdge => p.row == n - 1
    case LeftEdge => p.col == 0
  }

  function IndexOn(p: Place, e: Edge): int {
    if e == TopEdge || e == BottomEdge then p.col else p.row
  }

  function Inward(p: Place, e: Edge): Place {
    match e
    case TopEdge => Place(p.face, p.row - 1, p.col)
    case RightEdge => Place(p.face, p.row, p.col + 1)
    case BottomEdge => Place(p.face, p.row + 1, p.col)
    case LeftEdge => Place(p.face, p.row, p.col - 1)
  }

  /** One step towards an edge: to the next point of the face, or across the seam. */
  function Neighbor(n: nat, p: Place, e: Edge): Place {
    if OnEdge(n, p, e) then Across(n, SeamOf(p.face, e), IndexOn(p, e)) else Inward(p, e)
  }

  lemma SquaresTwo(u: int, v: int, w: int)
    requires u % 2 == 1 && v % 2 == 1 && w % 2 == 0
    ensures u * u + v * v + w * w != 4
    ensures u * u + v * v + w * w == 2 <==> (u == 1 || u == -1) && (v == 1 || v == -1) && w == 0
  {
    SquareGrows(u);
    SquareGrows(v);
    SquareGrows(w);
  }

  lemma SquareGrows(u: int)
    ensures u * u >= 0
    ensures u >= 2 || u <= -2 ==> u * u >= 4
    ensures u >= 3 || u <= -3 ==> u * u >= 9
  {
    if u >= 3 { assert u * u >= 3 * u; }
    if u <= -3 { assert u * u >= -3 * u; }
    if u == 2 || u == -2 { assert u * u == 4; }
  }

  lemma PlaneSquares(d: Vec, u: int, v: int)
    requires d in {Vec(v, u, 0), Vec(-v, u, 0), Vec(0, u, v), Vec(0, u, -v), Vec(v, 0, u), Vec(v, 0, -u)}
    ensures Dot(d, d) == u * u + v * v
  {
    assert (-u) * (-u) == u * u && (-v) * (-v) == v * v;
  }

  lemma UnitSquares(a: int, b: int)
    ensures (2 * a) * (2 * a) + (2 * b) * (2 * b) != 2
    ensures (2 * a) * (2 * a) + (2 * b) * (2 * b) == 4 <==>
            (a == 0 && (b == 1 || b == -1)) || (b == 0 && (a == 1 || a == -1))
  {
    SquareGrows(a);
    SquareGrows(b);
    assert (2 * a) * (2 * a) == 4 * (a * a) && (2 * b) * (2 * b) == 4 * (b * b);
  }

  lemma SameFaceDist(n: nat, p: Place, q: Place)
    requires p.face == q.face
    ensures var (a, b) := (2 * (p.row - q.row), 2 * (p.col - q.col));
      Dist2(Embed(n, p), Embed(n, q)) == a * a + b * b
  {
    EmbedIs(n, p);
    EmbedIs(n, q);
    PlaneSquares(Sub(Coords(n, p), Coords(n, q)), 2 * (p.row - q.row), 2 * (p.col - q.col));
  }

  /** Points of one face are near exactly when one is a step from the other. */
  lemma SameFaceNear(n: nat, p: Place, q: Place)
    requires OnCube(n, p) && OnCube(n, q) && p.face == q.face
    ensures Dist2(Embed(n, p), Embed(n, q)) != 2
    ensures Near(n, p, q) <==> exists e :: !OnEdge(n, p, e) && q == Inward(p, e)
  {
    SameFaceDist(n, p, q);
    var a, b := p.row - q.row, p.col - q.col;
    UnitSquares(a, b);
    if Near(n, p, q) {
      var e := if a == 1 then TopEdge else if a == -1 then BottomEdge else if b == 1 then LeftEdge else RightEdge;
      assert q == Inward(p, e);
    }
  }

  // ----- across the seams -----

  /** How far a point is from an edge of its face. */
  function Depth(n: nat, p: Place, e: Edge): int {
    match e
    case TopEdge => p.row
    case RightEdge => n - 1 - p.col
    case BottomEdge => n - 1 - p.row
    case LeftEdge => p.col
  }

  function PairedIndex(n: nat, s: Seam, q: Place): int {
    if s.reversed then n - 1 - IndexOn(q, s.edge') else IndexOn(q, s.edge')
  }

  predicate UpToSigns(d: Vec, a: int, b: int, c: int) {
    (d.x == a || d.x == -a) && (d.y == b || d.y == -b) && (d.z == c || d.z == -c)
  }

  predicate Shuffled(d: Vec, u: int, v: int, w: int) {
    UpToSigns(d, u, v, w) || UpToSigns(d, v, u, w) || UpToSigns(d, u, w, v) ||
    UpToSigns(d, v, w, u) || UpToSigns(d, w, u, v) || UpToSigns(d, w, v, u)
  }

  lemma ShuffledSquares(d: Vec, u: int, v: int, w: int)
    requires Shuffled(d, u, v, w)
    ensures Dot(d, d) == u * u + v * v + w * w
  {
    assert (-u) * (-u) == u * u && (-v) * (-v) == v * v && (-w) * (-w) == w * w;
  }

  /** The offset between points of adjoining faces: the two odd depths below the shared edge and the even offset along it. */
  predicate SeamSplit(n: nat, p: Place, e: Edge, q: Place) {
    var s := SeamOf(p.face, e);
    Shuffled(Sub(Coords(n, p), Coords(n, q)), 2 * Depth(n, p, e) + 1, 2 * Depth(n, q, s.edge') + 1,
             2 * (IndexOn(p, e) - PairedIndex(n, s, q)))
  }

  lemma CrossFromFront(n: nat, p: Place, e: Edge, q: Place)
    requires p.face == Front && q.face == SeamOf(p.face, e).face'
    ensures SeamSplit(n, p, e, q)
  {
    match e { case TopEdge => case RightEdge => case BottomEdge => case LeftEdge => }
  }

  lemma CrossFromBack(n: nat, p: Place, e: Edge, q: Place)
    requires p.face == Back && q.face == SeamOf(p.face, e).face'
    ensures SeamSplit(n, p, e, q)
  {
    match e { case TopEdge => case RightEdge => case BottomEdge => case LeftEdge => }
  }

  lemma CrossFromLeft(n: nat, p: Place, e: Edge, q: Place)
    requires p.face == Left && q.face == SeamOf(p.face, e).face'
    ensures SeamSplit(n, p, e, q)
  {
    match e { case TopEdge => case RightEdge => case BottomEdge => case LeftEdge => }
  }

  lemma CrossFromRight(n: nat, p: Place, e: Edge, q: Place)
    requires p.face == Right && q.face == SeamOf(p.face, e).face'
    ensures SeamSplit(n, p, e, q)
  {
    match e { case TopEdge => case RightEdge => case BottomEdge => case LeftEdge => }
  }

  lemma CrossFromTop(n: nat, p: Place, e: Edge, q: Place)
    requires p.face == Top && q.face == SeamOf(p.face, e).face'
    ensures SeamSplit(n, p, e, q)
  {
    match e { case TopEdge => case RightEdge => case BottomEdge => case LeftEdge => }
  }

  lemma CrossFromBottom(n: nat, p: Place, e: Edge, q: Place)
    requires p.face == Bottom && q.face == SeamOf(p.face, e).face'
    ensures SeamSplit(n, p, e, q)
  {
    match e { case TopEdge => case RightEdge => case BottomEdge => case LeftEdge => }
  }

  lemma CrossSplits(n: nat, p: Place, e: Edge, q: Place)
    requires q.face == SeamOf(p.face, e).face'
    ensures SeamSplit(n, p, e, q)
  {
    match p.face {
      case Front => CrossFromFront(n, p, e, q);
      case Back => CrossFromBack(n, p, e, q);
      case Left => CrossFromLeft(n, p, e, q);
      case Right => CrossFromRight(n, p, e, q);
      case Top => CrossFromTop(n, p, e, q);
      case Bottom => CrossFromBottom(n, p, e, q);
    }
  }

  /** Between two faces that share an edge, the squared distance splits into the two depths and the offset along the seam. */
  lemma CrossDist(n: nat, p: Place, e: Edge, q: Place, u: int, v: int, w: int)
    requires q.face == SeamOf(p.face, e).face'
    requires u == 2 * Depth(n, p, e) + 1 && v == 2 * Depth(n, q, SeamOf(p.face, e).edge') + 1
    requires w == 2 * (IndexOn(p, e) - PairedIndex(n, SeamOf(p.face, e), q))
    ensures Dist2(Embed(n, p), Embed(n, q)) == u * u + v * v + w * w
  {
    hide Embed, Coords, Depth, SeamOf, Shuffled, IndexOn, PairedIndex;
    CrossSplits(n, p, e, q);
    ShuffledSquares(Sub(Coords(n, p), Coords(n, q)), u, v, w);
    EmbedIs(n, p);
    EmbedIs(n, q);
  }

  lemma PairedMeansAcross(n: nat, p: Place, e: Edge, q: Place)
    requires q.face == SeamOf(p.face, e).face'
    ensures Depth(n, q, SeamOf(p.face, e).edge') == 0 && IndexOn(p, e) == PairedIndex(n, SeamOf(p.face, e), q) <==>
            q == Across(n, SeamOf(p.face, e), IndexOn(p, e))
  {
  }

  /** Points of two faces that share an edge are near exactly when the seam pairs them. */
  lemma CrossNear(n: nat, p: Place, e: Edge, q: Place)
    requires OnCube(n, p) && OnCube(n, q) && q.face == SeamOf(p.face, e).face'
    ensures Dist2(Embed(n, p), Embed(n, q)) != 4
    ensures Near(n, p, q) <==> OnEdge(n, p, e) && q == Neighbor(n, p, e)
  {
    hide Dist2, Embed, SeamOf, Across;
    var depth, depth', offset := Depth(n, p, e), Depth(n, q, SeamOf(p.face, e).edge'), IndexOn(p, e) - PairedIndex(n, SeamOf(p.face, e), q);
    CrossDist(n, p, e, q, 2 * depth + 1, 2 * depth' + 1, 2 * offset);
    SquaresTwo(2 * depth + 1, 2 * depth' + 1, 2 * offset);
    PairedMeansAcross(n, p, e, q);
    assert depth == 0 <==> OnEdge(n, p, e);
    assert depth >= 0 && depth' >= 0;
  }

  function Opposite(f: Face): Face {
    match f case Front => Back case Back => Front case Left => Right case Right => Left case Top => Bottom case Bottom => Top
  }

  lemma OppositeFar(n: nat, p: Place, q: Place)
    requires n >= 2 && OnCube(n, p) && OnCube(n, q) && q.face == Opposite(p.face)
    ensures !Near(n, p, q)
  {
    EmbedIs(n, p);
    EmbedIs(n, q);
    var d := Sub(Coords(n, p), Coords(n, q));
    SquareGrows(d.x);
    SquareGrows(d.y);
    SquareGrows(d.z);
    match p.face { case Front => case Back => case Left => case Right => case Top => case Bottom => }
  }

  lemma FacesMeet(f: Face, g: Face) returns (e: Edge)
    requires f != g && g != Opposite(f)
    ensures SeamOf(f, e).face' == g
  {
    e := if SeamOf(f, TopEdge).face' == g then TopEdge else if SeamOf(f, RightEdge).face' == g then RightEdge
         else if SeamOf(f, BottomEdge).face' == g then BottomEdge else LeftEdge;
  }

  lemma SeamFacesDistinct(f: Face, e: Edge, e': Edge)
    requires e != e'
    ensures SeamOf(f, e).face' != SeamOf(f, e').face' && SeamOf(f, e).face' != f
  {
    match f { case Front => case Back => case Left => case Right => case Top => case Bottom => }
  }

  lemma SeamFacesAdjoin(f: Face, e: Edge)
    ensures SeamOf(f, e).face' != Opposite(f)
  {
    match f { case Front => case Back => case Left => case Right => case Top => case Bottom => }
  }

  /** The graph the seams define is the geometric one: for every n >= 2 the points near a point are its four
      neighbours, the distance is 2 exactly across a seam, and the four are on the cube and different. */
  lemma NeighborsAreNear(n: nat, p: Place, q: Place)
    requires n >= 2 && OnCube(n, p) && OnCube(n, q)
    ensures Near(n, p, q) <==> exists e :: q == Neighbor(n, p, e)
    ensures Near(n, p, q) ==> (Dist2(Embed(n, p), Embed(n, q)) == 2 <==> p.face != q.face)
  {
    hide Dist2, Embed, SeamOf, OnCube, OnEdge;
    if p.face == q.face {
      SameFaceNear(n, p, q);
      forall e | q == Neighbor(n, p, e) ensures !OnEdge(n, p, e) {
        SeamFacesDistinct(p.face, e, if e == TopEdge then LeftEdge else TopEdge);
      }
    } else if q.face == Opposite(p.face) {
      OppositeFar(n, p, q);
      forall e ensures SeamOf(p.face, e).face' != q.face {
        SeamFacesAdjoin(p.face, e);
      }
    } else {
      var e := FacesMeet(p.face, q.face);
      CrossNear(n, p, e, q);
      forall e' | q == Neighbor(n, p, e') ensures Near(n, p, q) {
        CrossNear(n, p, e', q);
      }
    }
  }

  lemma NeighborsDistinct(n: nat, p: Place, e: Edge, e': Edge)
    requires n >= 2 && OnCube(n, p) && e != e'
    ensures OnCube(n, Neighbor(n, p, e)) && Neighbor(n, p, e) != Neighbor(n, p, e') && Neighbor(n, p, e) != p
    ensures Neighbor(n, p, e).face == p.face <==> !OnEdge(n, p, e)
  {
    hide SeamOf, FrameOf, OnEdge, Inward, OnCube;
    SeamFacesDistinct(p.face, e, e');
    SeamFacesDistinct(p.face, e', e);
    NeighborOnCube(n, p, e);
    InwardMoves(p, e, e');
  }

  lemma NeighborOnCube(n: nat, p: Place, e: Edge)
    requires n >= 1 && OnCube(n, p)
    ensures OnCube(n, Neighbor(n, p, e))
  {
    hide SeamOf;
  }

  lemma InwardMoves(p: Place, e: Edge, e': Edge)
    requires e != e'
    ensures Inward(p, e) != Inward(p, e') && Inward(p, e) != p && Inward(p, e).face == Inward(p, e').face == p.face
  {
  }
}
