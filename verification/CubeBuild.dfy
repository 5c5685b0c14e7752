/** The in-place construction of the neighbour lists, proved to yield the geometric graph for every size. */
module CubeBuild {
  import opened Topology
  import opened CubeGeometry
  import opened CubeTopology

  predicate NearIds(n: nat, a: nat, b: nat)
    requires n >= 2
  {
    a < PointCount(n) && b < PointCount(n) && Near(n, PlaceOf(n, a), PlaceOf(n, b))
  }

  function Label(n: nat, a: nat, b: nat): Relation
    requires n >= 2 && a < PointCount(n) && b < PointCount(n)
  {
    if PlaceOf(n, a).face == PlaceOf(n, b).face then SameFace else CrossFaceSeam
  }

  /** One neighbour list with its labels: no repeats, and every label is the one the geometry gives. */
  ghost predicate ListOk(n: nat, p: nat, neighbors: seq<nat>, labels: seq<Relation>)
    requires n >= 2 && p < PointCount(n)
  {
    && |neighbors| == |labels|
    && (forall i, j :: 0 <= i < j < |neighbors| ==> neighbors[i] != neighbors[j])
    && (forall i :: 0 <= i < |neighbors| ==> neighbors[i] < PointCount(n) && labels[i] == Label(n, p, neighbors[i]))
  }

  /** The lists hold exactly these directed edges. */
  ghost predicate Holds(n: nat, adj: Adjacency, rel: seq<seq<Relation>>, edges: set<(nat, nat)>)
    requires n >= 2
  {
    && |adj| == |rel| == PointCount(n)
    && (forall p :: 0 <= p < |adj| ==> ListOk(n, p, adj[p], rel[p]))
    && (forall p: nat, q: nat :: p < |adj| ==> (q in adj[p] <==> (p, q) in edges))
  }

  /** One direction of an edge: appended when absent, compared with the recorded relation when present. */
  method AddHalf(n: nat, neighbors: seq<nat>, labels: seq<Relation>, left: nat, right: nat, relation: Relation)
    returns (neighbors': seq<nat>, labels': seq<Relation>, conflict: bool)
    requires n >= 2 && left < PointCount(n) && right < PointCount(n) && relation == Label(n, left, right)
    requires ListOk(n, left, neighbors, labels)
    ensures !conflict && ListOk(n, left, neighbors', labels')
    ensures forall q :: q in neighbors' <==> q in neighbors || q == right
  {
    neighbors', labels', conflict := neighbors, labels, false;
    if right !in neighbors {
      neighbors', labels' := neighbors + [right], labels + [relation];
    } else {
      var index :| 0 <= index < |neighbors| && neighbors[index] == right;
      conflict := labels[index] != relation;
    }
  }

  lemma LabelSymmetric(n: nat, a: nat, b: nat)
    requires n >= 2 && a < PointCount(n) && b < PointCount(n)
    ensures Label(n, a, b) == Label(n, b, a)
  {
  }

  /** Both directions of an edge, in place; a conflicting relation never turns up. */
  method AddEdge(n: nat, adjacency: array<seq<nat>>, relations: array<seq<Relation>>, a: nat, b: nat, relation: Relation,
                 ghost edges: set<(nat, nat)>) returns (conflict: bool)
    requires n >= 2 && adjacency.Length == relations.Length == PointCount(n) && a < PointCount(n) && b < PointCount(n) && a != b
    requires Holds(n, adjacency[..], relations[..], edges) && relation == Label(n, a, b)
    modifies adjacency, relations
    ensures !conflict
    ensures Holds(n, adjacency[..], relations[..], edges + {(a, b), (b, a)})
  {
    LabelSymmetric(n, a, b);
    assert ListOk(n, a, adjacency[..][a], relations[..][a]);
    assert ListOk(n, b, adjacency[..][b], relations[..][b]);
    assert forall q :: q in adjacency[..][a] <==> (a, q) in edges;
    assert forall q :: q in adjacency[..][b] <==> (b, q) in edges;
    ghost var adj0, rel0 := adjacency[..], relations[..];
    var neighbors, labels, conflictA := AddHalf(n, adjacency[a], relations[a], a, b, relation);
    adjacency[a], relations[a] := neighbors, labels;
    var neighbors', labels', conflictB := AddHalf(n, adjacency[b], relations[b], b, a, relation);
    adjacency[b], relations[b] := neighbors', labels';
    conflict := conflictA || conflictB;
    forall p | 0 <= p < PointCount(n) ensures ListOk(n, p, adjacency[..][p], relations[..][p]) {
      assert ListOk(n, p, adj0[p], rel0[p]);
    }
  }

  // ----- which edges are in place after the first k points -----

  /** A face edge is added by its later point, a seam edge by whichever point comes first. */
  predicate Settled(n: nat, k: nat, a: nat, b: nat)
    requires n >= 2 && a < PointCount(n) && b < PointCount(n)
  {
    if Label(n, a, b) == SameFace then a < k && b < k else a < k || b < k
  }

  ghost function EdgesBefore(n: nat, k: nat): set<(nat, nat)>
    requires n >= 2
  {
    set a: nat, b: nat | a < PointCount(n) && b < PointCount(n) && NearIds(n, a, b) && Settled(n, k, a, b) :: (a, b)
  }

  predicate Contributes(n: nat, p: Place, e: Edge) {
    OnEdge(n, p, e) || e == TopEdge || e == LeftEdge
  }

  ghost function Contributed(n: nat, p: Place): set<int>
  {
    set e: Edge | Contributes(n, p, e) :: PointId(n, Neighbor(n, p, e))
  }

  ghost function Spokes(k: nat, c: set<nat>): set<(nat, nat)> {
    (set x | x in c :: (k, x)) + (set x | x in c :: (x, k))
  }

  lemma SquareOfNegative(a: int, b: int)
    requires a == -b
    ensures a * a == b * b
  {
  }

  lemma NearSymmetric(n: nat, p: Place, q: Place)
    ensures Near(n, p, q) == Near(n, q, p)
  {
    var d, d' := Sub(Embed(n, p), Embed(n, q)), Sub(Embed(n, q), Embed(n, p));
    SquareOfNegative(d.x, d'.x);
    SquareOfNegative(d.y, d'.y);
    SquareOfNegative(d.z, d'.z);
    assert Dot(d, d) == Dot(d', d');
  }

  lemma NotNearSelf(n: nat, p: Place)
    ensures !Near(n, p, p)
  {
    SameFaceDist(n, p, p);
  }

  /** Of the points near p, those contributed by p are the seam partners and the earlier face neighbours. */
  lemma ContributedAre(n: nat, p: Place, b: nat)
    requires n >= 2 && OnCube(n, p) && b < PointCount(n)
    ensures 0 <= PointId(n, p) < PointCount(n)
    ensures b in Contributed(n, p) <==>
            NearIds(n, PointId(n, p), b) && (Label(n, PointId(n, p), b) == SameFace ==> b < PointId(n, p))
  {
    PlaceOfPointId(n, p);
    var k: nat := PointId(n, p);
    var q := PlaceOf(n, b);
    NeighborsAreNear(n, p, q);
    forall e ensures OnCube(n, Neighbor(n, p, e)) && (Neighbor(n, p, e).face == p.face <==> !OnEdge(n, p, e)) {
      NeighborsDistinct(n, p, e, if e == TopEdge then LeftEdge else TopEdge);
    }
    if Near(n, p, q) {
      var e :| q == Neighbor(n, p, e);
      if !OnEdge(n, p, e) {
        InwardIds(n, p, e);
        assert b < k <==> e == TopEdge || e == LeftEdge;
      }
      if Label(n, k, b) == SameFace ==> b < k {
        assert Contributes(n, p, e);
      }
      if b in Contributed(n, p) {
        var e' :| Contributes(n, p, e') && PointId(n, Neighbor(n, p, e')) == b;
        PointIdInjective(n, Neighbor(n, p, e'), q);
        if e != e' { NeighborsDistinct(n, p, e, e'); }
      }
    } else if b in Contributed(n, p) {
      var e' :| Contributes(n, p, e') && PointId(n, Neighbor(n, p, e')) == b;
      PointIdInjective(n, Neighbor(n, p, e'), q);
      assert false;
    }
  }

  lemma InwardIds(n: nat, p: Place, e: Edge)
    requires n >= 2 && OnCube(n, p) && !OnEdge(n, p, e)
    ensures var width: int := n;
      PointId(n, Inward(p, e)) == PointId(n, p) +
        match e case TopEdge => -width case RightEdge => 1 case BottomEdge => width case LeftEdge => -1
  {
    assert (p.row - 1) * n == p.row * n - n && (p.row + 1) * n == p.row * n + n;
  }

  lemma ContributedInRange(n: nat, p: Place, x: int)
    requires n >= 2 && OnCube(n, p) && x in Contributed(n, p)
    ensures 0 <= x < PointCount(n)
  {
    var e :| Contributes(n, p, e) && PointId(n, Neighbor(n, p, e)) == x;
    NeighborsDistinct(n, p, e, if e == TopEdge then LeftEdge else TopEdge);
    PointIdRange(n, Neighbor(n, p, e));
  }

  lemma InEdgesBefore(n: nat, k: nat, a: nat, b: nat)
    requires n >= 2
    ensures (a, b) in EdgesBefore(n, k) <==>
            a < PointCount(n) && b < PointCount(n) && NearIds(n, a, b) && Settled(n, k, a, b)
  {
  }

  lemma VisitedEdge(n: nat, p: Place, k: nat, a: nat, b: nat)
    requires n >= 2 && OnCube(n, p) && k == PointId(n, p) && a < PointCount(n) && b < PointCount(n)
    ensures NearIds(n, a, b) && Settled(n, k + 1, a, b) <==>
            (NearIds(n, a, b) && Settled(n, k, a, b)) || (a == k && b in Contributed(n, p)) || (b == k && a in Contributed(n, p))
  {
    hide Near, PlaceOf, Label, Contributed;
    LabelSymmetric(n, a, b);
    NearSymmetric(n, PlaceOf(n, a), PlaceOf(n, b));
    ContributedAre(n, p, a);
    ContributedAre(n, p, b);
    NotNearSelf(n, PlaceOf(n, k));
  }

  /** Visiting point k adds exactly its spokes. */
  lemma VisitedEdges(n: nat, p: Place, k: nat, c: set<nat>)
    requires n >= 2 && OnCube(n, p) && k == PointId(n, p) && c == Contributed(n, p)
    ensures EdgesBefore(n, k + 1) == EdgesBefore(n, k) + Spokes(k, c)
  {
    PointIdRange(n, p);
    forall a: nat, b: nat ensures (a, b) in EdgesBefore(n, k + 1) <==> (a, b) in EdgesBefore(n, k) + Spokes(k, c) {
      InEdgesBefore(n, k, a, b);
      InEdgesBefore(n, k + 1, a, b);
      if a in c { ContributedInRange(n, p, a); }
      if b in c { ContributedInRange(n, p, b); }
      if a < PointCount(n) && b < PointCount(n) { VisitedEdge(n, p, k, a, b); }
    }
  }

  lemma AddSpoke(n: nat, adj: Adjacency, rel: seq<seq<Relation>>, before: set<(nat, nat)>, k: nat, c: set<nat>, x: nat)
    requires n >= 2 && Holds(n, adj, rel, before + Spokes(k, c) + {(k, x), (x, k)})
    ensures Holds(n, adj, rel, before + Spokes(k, c + {x}))
  {
    assert Spokes(k, c + {x}) == Spokes(k, c) + {(k, x), (x, k)};
    assert before + Spokes(k, c) + {(k, x), (x, k)} == before + Spokes(k, c + {x});
  }

  /** One step of the pass: an edge of point p towards side e, across the seam or within the face. */
  method VisitSide(n: nat, directed: Directed, adjacency: array<seq<nat>>, relations: array<seq<Relation>>, p: Place, e: Edge,
                   ghost before: set<(nat, nat)>, ghost c: set<nat>) returns (conflict: bool)
    requires n >= 2 && adjacency.Length == relations.Length == PointCount(n) && OnCube(n, p)
    requires Complete(directed)
    requires Holds(n, adjacency[..], relations[..], before + Spokes(PointId(n, p), c))
    modifies adjacency, relations
    ensures !conflict && 0 <= PointId(n, p) && 0 <= PointId(n, Neighbor(n, p, e))
    ensures Holds(n, adjacency[..], relations[..], before + Spokes(PointId(n, p), c + {PointId(n, Neighbor(n, p, e))}))
  {
    NeighborsDistinct(n, p, e, if e == TopEdge then LeftEdge else TopEdge);
    var q := if OnEdge(n, p, e) then Across(n, directed[(p.face, e)], IndexOn(p, e)) else Inward(p, e);
    assert q == Neighbor(n, p, e);
    PlaceOfPointId(n, p);
    PlaceOfPointId(n, q);
    var a: nat, b: nat := PointId(n, p), PointId(n, q);
    if a == b { PointIdInjective(n, p, q); }
    conflict := AddEdge(n, adjacency, relations, a, b, if OnEdge(n, p, e) then CrossFaceSeam else SameFace,
                        before + Spokes(a, c));
    AddSpoke(n, adjacency[..], relations[..], before, a, c, b);
  }

  ghost function SpokeIf(n: nat, p: Place, e: Edge, guard: bool): set<int> {
    if guard then {PointId(n, Neighbor(n, p, e))} else {}
  }

  method VisitSideIf(n: nat, directed: Directed, adjacency: array<seq<nat>>, relations: array<seq<Relation>>, p: Place, e: Edge,
                     guard: bool, ghost before: set<(nat, nat)>, ghost c: set<nat>) returns (conflict: bool, ghost c': set<nat>)
    requires n >= 2 && adjacency.Length == relations.Length == PointCount(n) && OnCube(n, p)
    requires Complete(directed)
    requires Holds(n, adjacency[..], relations[..], before + Spokes(PointId(n, p), c))
    modifies adjacency, relations
    ensures !conflict && 0 <= PointId(n, p) && c' == c + SpokeIf(n, p, e, guard)
    ensures Holds(n, adjacency[..], relations[..], before + Spokes(PointId(n, p), c'))
  {
    PointIdRange(n, p);
    conflict, c' := false, c;
    if guard {
      conflict := VisitSide(n, directed, adjacency, relations, p, e, before, c);
      c' := c + {PointId(n, Neighbor(n, p, e))};
    }
  }

  /** The guards of the six additions, in program order, cover exactly the contributed sides. */
  lemma GuardsCover(n: nat, p: Place, c: set<nat>)
    requires n >= 2 && OnCube(n, p)
    requires c == {} + SpokeIf(n, p, TopEdge, p.row > 0) + SpokeIf(n, p, LeftEdge, p.col > 0)
            + SpokeIf(n, p, TopEdge, p.row == 0) + SpokeIf(n, p, BottomEdge, p.row != 0 && p.row == n - 1)
            + SpokeIf(n, p, LeftEdge, p.col == 0) + SpokeIf(n, p, RightEdge, p.col != 0 && p.col == n - 1)
    ensures c == Contributed(n, p)
  {
  }

  /** The body of the innermost loop, in the order the program adds: up, left, then the seams at the row ends and the column ends. */
  method VisitPoint(n: nat, directed: Directed, adjacency: array<seq<nat>>, relations: array<seq<Relation>>, p: Place,
                    ghost k: nat) returns (conflict: bool)
    requires n >= 2 && adjacency.Length == relations.Length == PointCount(n) && OnCube(n, p) && k == PointId(n, p)
    requires Complete(directed)
    requires Holds(n, adjacency[..], relations[..], EdgesBefore(n, k))
    modifies adjacency, relations
    ensures !conflict && Holds(n, adjacency[..], relations[..], EdgesBefore(n, k + 1))
  {
    ghost var before := EdgesBefore(n, k);
    ghost var c: set<nat> := {};
    assert before + Spokes(k, c) == before;
    var up, left, rowFirst, rowLast, colFirst, colLast;
    up, c := VisitSideIf(n, directed, adjacency, relations, p, TopEdge, p.row > 0, before, c);
    left, c := VisitSideIf(n, directed, adjacency, relations, p, LeftEdge, p.col > 0, before, c);
    rowFirst, c := VisitSideIf(n, directed, adjacency, relations, p, TopEdge, p.row == 0, before, c);
    rowLast, c := VisitSideIf(n, directed, adjacency, relations, p, BottomEdge, p.row != 0 && p.row == n - 1, before, c);
    colFirst, c := VisitSideIf(n, directed, adjacency, relations, p, LeftEdge, p.col == 0, before, c);
    colLast, c := VisitSideIf(n, directed, adjacency, relations, p, RightEdge, p.col != 0 && p.col == n - 1, before, c);
    conflict := up || left || rowFirst || rowLast || colFirst || colLast;
    GuardsCover(n, p, c);
    VisitedEdges(n, p, k, c);
  }

  /** The finished graph: every list holds exactly the near points, each once, with its relation. */
  ghost predicate IsCubeGraph(n: nat, adj: Adjacency, rel: seq<seq<Relation>>)
    requires n >= 2
  {
    && |adj| == |rel| == PointCount(n)
    && (forall p :: 0 <= p < |adj| ==> ListOk(n, p, adj[p], rel[p]))
    && (forall p: nat, q: nat :: p < |adj| ==> (q in adj[p] <==> NearIds(n, p, q)))
  }

  datatype Built = Topology(adjacency: Adjacency, relations: seq<seq<Relation>>) | ConflictingRelation

  lemma BuildFinished(n: nat, adj: Adjacency, rel: seq<seq<Relation>>)
    requires n >= 2 && Holds(n, adj, rel, EdgesBefore(n, PointCount(n)))
    ensures IsCubeGraph(n, adj, rel)
  {
    forall p: nat, q: nat | p < |adj| ensures q in adj[p] <==> NearIds(n, p, q) {
      assert (p, q) in EdgesBefore(n, PointCount(n)) <==> NearIds(n, p, q);
    }
  }

  method BuildRow(n: nat, directed: Directed, adjacency: array<seq<nat>>, relations: array<seq<Relation>>, f: Face, row: nat,
                  ghost start: nat) returns (conflict: bool)
    requires n >= 2 && adjacency.Length == relations.Length == PointCount(n) && row < n
    requires start == Rank(f) * (n * n) + row * n
    requires Complete(directed)
    requires Holds(n, adjacency[..], relations[..], EdgesBefore(n, start))
    modifies adjacency, relations
    ensures !conflict && Holds(n, adjacency[..], relations[..], EdgesBefore(n, start + n))
  {
    hide Holds, EdgesBefore, Complete;
    conflict := false;
    for col := 0 to n
      invariant !conflict && Holds(n, adjacency[..], relations[..], EdgesBefore(n, start + col))
    {
      var c := VisitPoint(n, directed, adjacency, relations, Place(f, row, col), start + col);
      conflict := conflict || c;
    }
  }

  method BuildFace(n: nat, directed: Directed, adjacency: array<seq<nat>>, relations: array<seq<Relation>>, f: Face, ghost start: nat)
    returns (conflict: bool)
    requires n >= 2 && adjacency.Length == relations.Length == PointCount(n) && start == Rank(f) * (n * n)
    requires Complete(directed)
    requires Holds(n, adjacency[..], relations[..], EdgesBefore(n, start))
    modifies adjacency, relations
    ensures !conflict && Holds(n, adjacency[..], relations[..], EdgesBefore(n, start + n * n))
  {
    conflict := false;
    ghost var k: nat := start;
    for row := 0 to n
      invariant k == start + row * n && !conflict && Holds(n, adjacency[..], relations[..], EdgesBefore(n, k))
    {
      var c := BuildRow(n, directed, adjacency, relations, f, row, k);
      conflict := conflict || c;
      k := k + n;
      assert (row + 1) * n == row * n + n;
    }
  }

  /** The whole build: for every n >= 2 no relation ever conflicts, and the lists are the geometric graph. */
  method BuildTopology(n: nat) returns (r: Built)
    requires n >= 2
    ensures r.Topology? && IsCubeGraph(n, r.adjacency, r.relations)
  {
    var seams := DeriveSeams();
    var directed := DirectedSeams(seams);
    var adjacency := new seq<nat>[PointCount(n)](_ => []);
    var relations := new seq<Relation>[PointCount(n)](_ => []);
    ghost var k: nat := 0;
    assert EdgesBefore(n, 0) == {};
    for f := 0 to 6
      invariant k == f * (n * n) && Holds(n, adjacency[..], relations[..], EdgesBefore(n, k))
    {
      RankOfFace(f);
      var conflict := BuildFace(n, directed, adjacency, relations, FACES[f], k);
      if conflict {
        return ConflictingRelation;
      }
      k := k + n * n;
      assert (f + 1) * (n * n) == f * (n * n) + n * n;
    }
    assert k == PointCount(n);
    BuildFinished(n, adjacency[..], relations[..]);
    r := Topology(adjacency[..], relations[..]);
  }
}
