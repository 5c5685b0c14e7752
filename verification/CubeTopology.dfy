/** The cube graph as it is built: seams collected once, then one pass over the points filling neighbour lists in place. */
module CubeTopology {
  import opened Topology
  import opened CubeGeometry

  datatype Relation = SameFace | CrossFaceSeam

  // ----- point numbers -----

  function PointCount(n: nat): nat { 6 * n * n }

  function PointId(n: nat, p: Place): int {
    Rank(p.face) * (n * n) + p.row * n + p.col
  }

  function PlaceOf(n: nat, id: nat): (p: Place)
    requires n >= 1 && id < PointCount(n)
    ensures OnCube(n, p) && PointId(n, p) == id
  {
    PlaceInRange(n, id);
    var face, rest := id / (n * n), id % (n * n);
    var p := Place(FACES[face], rest / n, rest % n);
    PlaceNumbered(n, id, face, rest, p);
    p
  }

  lemma PlaceInRange(n: nat, id: nat)
    requires n >= 1 && id < PointCount(n)
    ensures var m := n * n;
      && m > 0 && id / m < 6 && id == (id / m) * m + id % m
      && id % m == (id % m / n) * n + id % m % n && 0 <= id % m / n < n && 0 <= id % m % n < n
  {
    var m := n * n;
    QuotientBelow(id, m, 6);
    DivisionParts(id, m);
    QuotientBelow(id % m, n, n);
    DivisionParts(id % m, n);
  }

  lemma PlaceNumbered(n: nat, id: nat, face: nat, rest: nat, p: Place)
    requires face < 6 && p.face == FACES[face] && id == face * (n * n) + rest && rest == p.row * n + p.col
    ensures PointId(n, p) == id
  {
    RankOfFace(face);
  }

  lemma DivisionParts(a: nat, m: nat)
    requires m > 0
    ensures a == (a / m) * m + a % m && 0 <= a % m < m
  {
  }

  lemma MultipleGrows(k: int, l: int, m: nat)
    ensures k <= l ==> k * m <= l * m
  {
  }

  lemma QuotientBelow(a: nat, m: nat, k: nat)
    requires m > 0 && a < k * m
    ensures a / m < k
  {
    DivisionParts(a, m);
    MultipleGrows(k, a / m, m);
  }

  lemma PartsUnique(m: nat, q: int, r: int, q': int, r': int)
    requires 0 <= r < m && 0 <= r' < m && q * m + r == q' * m + r'
    ensures q == q' && r == r'
  {
    MultipleGrows(q + 1, q', m);
    MultipleGrows(q' + 1, q, m);
    assert (q + 1) * m == q * m + m && (q' + 1) * m == q' * m + m;
  }

  lemma FaceOffset(n: nat, row: int, col: int)
    requires 0 <= row < n && 0 <= col < n
    ensures 0 <= row * n + col < n * n
  {
    assert (row + 1) * n <= n * n;
  }

  lemma PointIdRange(n: nat, p: Place)
    requires OnCube(n, p)
    ensures 0 <= PointId(n, p) < PointCount(n)
  {
    FaceOffset(n, p.row, p.col);
    var face, m := Rank(p.face), n * n;
    assert (6 - face) * m >= m;
    assert (6 - face) * m == 6 * m - face * m;
  }

  lemma RankInjective(f: Face, g: Face)
    requires Rank(f) == Rank(g)
    ensures f == g
  {
    match f { case Front => case Back => case Left => case Right => case Top => case Bottom => }
  }

  /** Points have different numbers. */
  lemma PointIdInjective(n: nat, p: Place, q: Place)
    requires OnCube(n, p) && OnCube(n, q) && PointId(n, p) == PointId(n, q)
    ensures p == q
  {
    FaceOffset(n, p.row, p.col);
    FaceOffset(n, q.row, q.col);
    PartsUnique(n * n, Rank(p.face), p.row * n + p.col, Rank(q.face), q.row * n + q.col);
    PartsUnique(n, p.row, p.col, q.row, q.col);
    RankInjective(p.face, q.face);
  }

  lemma PlaceOfPointId(n: nat, p: Place)
    requires n >= 1 && OnCube(n, p)
    ensures 0 <= PointId(n, p) < PointCount(n) && PlaceOf(n, PointId(n, p)) == p
  {
    PointIdRange(n, p);
    PointIdInjective(n, PlaceOf(n, PointId(n, p)), p);
  }

  // ----- seams -----

  predicate FirstSide(f: Face, e: Edge) {
    var s := SeamOf(f, e);
    Rank(f) < Rank(s.face') || (Rank(f) == Rank(s.face') && EdgeRank(e) < EdgeRank(s.edge'))
  }

  /** A seam listed from its first side. */
  predicate IsSeam(s: Seam) {
    FirstSide(s.face, s.edge) && s == SeamOf(s.face, s.edge)
  }

  lemma SeamSides(f: Face, e: Edge)
    ensures SeamOf(f, e).face == f && SeamOf(f, e).edge == e
  {
    match f { case Front => case Back => case Left => case Right => case Top => case Bottom => }
  }

  function SeamsFrom(f: Face, e: Edge): (r: seq<Seam>)
    ensures forall s :: s in r ==> IsSeam(s)
  {
    SeamSides(f, e);
    if FirstSide(f, e) then [SeamOf(f, e)] else []
  }

  function SeamList(k: nat): (r: seq<Seam>)
    requires k <= 24
    ensures forall s :: s in r ==> IsSeam(s)
  {
    if k == 0 then []
    else SeamList(k - 1) + SeamsFrom(FACES[(k - 1) / 4], EDGES[(k - 1) % 4])
  }

  function SideRank(f: Face, e: Edge): (k: nat)
    ensures k < 24 && k / 4 == Rank(f) && k % 4 == EdgeRank(e)
  {
    4 * Rank(f) + EdgeRank(e)
  }

  lemma {:induction false} InSeamList(k: nat, f: Face, e: Edge)
    requires SideRank(f, e) < k <= 24 && FirstSide(f, e)
    ensures SeamOf(f, e) in SeamList(k)
  {
    hide SeamOf, FirstSide, IsSeam;
    if SideRank(f, e) == k - 1 {
      assert SeamsFrom(f, e) == [SeamOf(f, e)];
      assert SeamList(k) == SeamList(k - 1) + SeamsFrom(FACES[(k - 1) / 4], EDGES[(k - 1) % 4]);
      assert SeamList(k)[|SeamList(k - 1)|] == SeamOf(f, e);
    } else {
      InSeamList(k - 1, f, e);
    }
  }

  lemma RankOfFace(i: nat)
    requires i < 6
    ensures Rank(FACES[i]) == i
  {
  }

  lemma RankOfEdge(i: nat)
    requires i < 4
    ensures EdgeRank(EDGES[i]) == i
  {
  }

  lemma TwelveSeams()
    ensures |SeamList(24)| == 12
  {
    assert |SeamList(4)| == 4;
    assert |SeamList(8)| == 8;
    assert |SeamList(12)| == 10;
    assert |SeamList(16)| == 12;
    assert |SeamList(20)| == 12;
  }

  /** All seams, each once from its first side, and twelve of them. */
  ghost predicate AllSeams(seams: seq<Seam>) {
    && |seams| == 12
    && (forall s :: s in seams ==> IsSeam(s))
    && (forall f, e :: FirstSide(f, e) ==> SeamOf(f, e) in seams)
  }

  lemma SeamListComplete()
    ensures AllSeams(SeamList(24))
  {
    TwelveSeams();
    var all := SeamList(24);
    forall f, e | FirstSide(f, e) ensures SeamOf(f, e) in all {
      InSeamList(24, f, e);
    }
  }

  method DeriveSide(f: Face, e: Edge) returns (s: Seam)
    ensures s == SeamOf(f, e) && s.face == f && s.edge == e
  {
    SeamTable(f, e);
    SeamSides(f, e);
    s := DerivedSeam(f, e);
  }

  method SeamsOfSide(f: Face, e: Edge) returns (found: seq<Seam>)
    ensures found == SeamsFrom(f, e)
  {
    var s := DeriveSide(f, e);
    if Rank(f) < Rank(s.face') || (Rank(f) == Rank(s.face') && EdgeRank(e) < EdgeRank(s.edge')) {
      found := [s];
    } else {
      found := [];
    }
  }

  lemma SeamListStart()
    ensures SeamList(0) == []
  {
  }

  lemma SeamListStep(k: nat, f: nat, e: nat)
    requires f < 6 && e < 4 && k == 4 * f + e
    ensures SeamList(k + 1) == SeamList(k) + SeamsFrom(FACES[f], EDGES[e])
  {
    hide SeamOf, FirstSide, IsSeam, SeamsFrom;
    assert k / 4 == f && k % 4 == e;
  }

  /** The nested search over faces and edges finds every seam once. */
  method DeriveSeams() returns (seams: seq<Seam>)
    ensures AllSeams(seams)
  {
    hide SeamOf, FirstSide, IsSeam, SeamsFrom, SeamList;
    assert SeamList(0) == [] by { SeamListStart(); }
    seams := [];
    ghost var k: nat := 0;
    for f := 0 to 6
      invariant k == 4 * f && seams == SeamList(k)
    {
      for e := 0 to 4
        invariant k == 4 * f + e && seams == SeamList(k)
      {
        var found := SeamsOfSide(FACES[f], EDGES[e]);
        SeamListStep(k, f, e);
        seams := seams + found;
        k := k + 1;
      }
    }
    SeamListComplete();
  }

  type Directed = map<(Face, Edge), Seam>

  ghost predicate Consistent(directed: Directed) {
    forall f, e :: (f, e) in directed ==> directed[(f, e)] == SeamOf(f, e)
  }

  /** Every side is listed, with the seam that starts there. */
  ghost predicate Complete(directed: Directed) {
    Consistent(directed) && forall f, e :: (f, e) in directed
  }

  method EnterSeam(directed: Directed, s: Seam) returns (r: Directed)
    requires Consistent(directed) && s == SeamOf(s.face, s.edge)
    ensures Consistent(r) && r.Keys == directed.Keys + {(s.face, s.edge)}
  {
    hide SeamOf;
    r := directed[(s.face, s.edge) := s];
  }

  /** Every side of every face is found in the directed table, with the seam that starts there. */
  method DirectedSeams(seams: seq<Seam>) returns (directed: Directed)
    requires AllSeams(seams)
    ensures Complete(directed)
  {
    hide SeamOf, FirstSide;
    directed := map[];
    for i := 0 to |seams|
      invariant Consistent(directed)
      invariant forall j :: 0 <= j < i ==> (seams[j].face, seams[j].edge) in directed.Keys
    {
      assert seams[i] in seams;
      directed := EnterSeam(directed, seams[i]);
    }
    for i := 0 to |seams|
      invariant Consistent(directed)
      invariant forall j :: 0 <= j < |seams| ==> (seams[j].face, seams[j].edge) in directed.Keys
      invariant forall j :: 0 <= j < i ==> (seams[j].face', seams[j].edge') in directed.Keys
    {
      assert IsSeam(seams[i]);
      FlipIsSeam(seams[i].face, seams[i].edge);
      directed := EnterSeam(directed, Flip(seams[i]));
    }
    forall f, e ensures (f, e) in directed {
      var i := SideCovered(seams, f, e);
    }
  }

  lemma OneSideFirst(f: Face, e: Edge)
    ensures FirstSide(f, e) || FirstSide(SeamOf(f, e).face', SeamOf(f, e).edge')
  {
    hide SeamOf;
    FlipIsSeam(f, e);
    if Rank(f) == Rank(SeamOf(f, e).face') { RankInjective(f, SeamOf(f, e).face'); }
  }

  lemma SideCovered(seams: seq<Seam>, f: Face, e: Edge) returns (i: nat)
    requires AllSeams(seams)
    ensures i < |seams|
    ensures (seams[i].face == f && seams[i].edge == e) || (seams[i].face' == f && seams[i].edge' == e)
  {
    FlipIsSeam(f, e);
    OneSideFirst(f, e);
    hide SeamOf, FirstSide;
    var s := SeamOf(f, e);
    if FirstSide(f, e) {
      i :| 0 <= i < |seams| && seams[i] == s;
    } else {
      assert SeamOf(s.face', s.edge') in seams;
      i :| 0 <= i < |seams| && seams[i] == Flip(s);
    }
  }
}
