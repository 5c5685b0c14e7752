/** Point graphs as the rules see them: one neighbour list per point. */
module Topology {

  type Adjacency = seq<seq<nat>>

  /** What the topology constructor checks: points exist, neighbours are in range, distinct,
      not the point itself, and every edge is listed from both ends. */
  ghost predicate WellFormed(adj: Adjacency) {
    && |adj| > 0
    && (forall p, i :: 0 <= p < |adj| && 0 <= i < |adj[p]| ==> adj[p][i] < |adj| && adj[p][i] != p)
    && (forall p, i, j :: 0 <= p < |adj| && 0 <= i < j < |adj[p]| ==> adj[p][i] != adj[p][j])
    && (forall p, q :: 0 <= p < |adj| && q in adj[p] ==> q < |adj| && p in adj[q])
  }

  /** The numbers below n. */
  function UpTo(n: nat): (s: set<nat>)
    ensures forall p: nat :: p in s <==> p < n
    ensures |s| == n
  {
    if n == 0 then {} else UpTo(n - 1) + {n - 1}
  }

  ghost predicate IsPath(adj: Adjacency, region: set<nat>, path: seq<nat>) {
    && |path| > 0
    && (forall i :: 0 <= i < |path| ==> path[i] < |adj| && path[i] in region)
    && (forall i :: 0 <= i < |path| - 1 ==> path[i + 1] in adj[path[i]])
  }

  ghost predicate PathBetween(adj: Adjacency, region: set<nat>, path: seq<nat>, a: nat, b: nat) {
    IsPath(adj, region, path) && path[0] == a && path[|path| - 1] == b
  }

  /** b can be reached from a without leaving the region. */
  ghost predicate Linked(adj: Adjacency, region: set<nat>, a: nat, b: nat) {
    exists path :: PathBetween(adj, region, path, a, b)
  }

  ghost function Component(adj: Adjacency, region: set<nat>, a: nat): set<nat> {
    set b: nat | b < |adj| && Linked(adj, region, a, b)
  }

  ghost predicate Closed(adj: Adjacency, region: set<nat>, c: set<nat>) {
    forall p, q :: p in c && p < |adj| && q in adj[p] && q in region ==> q in c
  }

  lemma LinkedRefl(adj: Adjacency, region: set<nat>, a: nat)
    requires a < |adj| && a in region
    ensures Linked(adj, region, a, a)
  {
    assert PathBetween(adj, region, [a], a, a);
  }

  lemma LinkedEnds(adj: Adjacency, region: set<nat>, a: nat, b: nat)
    requires Linked(adj, region, a, b)
    ensures a < |adj| && b < |adj| && a in region && b in region
  {
    var path :| PathBetween(adj, region, path, a, b);
    assert path[0] == a && path[|path| - 1] == b;
  }

  lemma LinkedStep(adj: Adjacency, region: set<nat>, a: nat, b: nat, c: nat)
    requires Linked(adj, region, a, b) && b < |adj| && c < |adj|
    requires c in adj[b] && c in region
    ensures Linked(adj, region, a, c)
  {
    var path :| PathBetween(adj, region, path, a, b);
    assert PathBetween(adj, region, path + [c], a, c);
  }

  lemma LinkedTrans(adj: Adjacency, region: set<nat>, a: nat, b: nat, c: nat)
    requires Linked(adj, region, a, b) && Linked(adj, region, b, c)
    ensures Linked(adj, region, a, c)
  {
    var first :| PathBetween(adj, region, first, a, b);
    var second :| PathBetween(adj, region, second, b, c);
    var path := first + second[1..];
    forall i | 0 <= i < |path| - 1 ensures path[i + 1] in adj[path[i]] {
      if i < |first| - 1 {
      } else {
        var j := i - (|first| - 1);
        assert path[i] == second[j] && path[i + 1] == second[j + 1];
      }
    }
    assert PathBetween(adj, region, path, a, c);
  }

  lemma LinkedSym(adj: Adjacency, region: set<nat>, a: nat, b: nat)
    requires WellFormed(adj) && Linked(adj, region, a, b)
    ensures Linked(adj, region, b, a)
  {
    var path :| PathBetween(adj, region, path, a, b);
    var back := seq(|path|, i requires 0 <= i < |path| => path[|path| - 1 - i]);
    forall i | 0 <= i < |back| - 1 ensures back[i + 1] in adj[back[i]] {
      var j := |path| - 2 - i;
      assert path[j + 1] in adj[path[j]];
      assert back[i + 1] == path[j] && back[i] == path[j + 1];
    }
    assert PathBetween(adj, region, back, b, a);
  }

  /** A closed set that holds one end of a path holds the other. */
  lemma ClosedHolds(adj: Adjacency, region: set<nat>, c: set<nat>, a: nat, b: nat)
    requires Closed(adj, region, c) && a in c && Linked(adj, region, a, b)
    ensures b in c
  {
    var path :| PathBetween(adj, region, path, a, b);
    var k := 0;
    while k < |path| - 1
      invariant 0 <= k < |path|
      invariant path[k] in c
    {
      assert path[k + 1] in adj[path[k]];
      k := k + 1;
    }
  }

  /** The flood-fill criterion: a closed set of points linked to the start is the component. */
  lemma ComponentByClosure(adj: Adjacency, region: set<nat>, a: nat, c: set<nat>)
    requires a in c && Closed(adj, region, c)
    requires forall b :: b in c ==> b < |adj| && Linked(adj, region, a, b)
    ensures c == Component(adj, region, a)
  {
    forall b: nat | b < |adj| && Linked(adj, region, a, b) ensures b in c {
      ClosedHolds(adj, region, c, a, b);
    }
  }

  /** A component is closed, holds its start and lies in the region. */
  lemma ComponentClosed(adj: Adjacency, region: set<nat>, a: nat)
    requires WellFormed(adj) && a < |adj| && a in region
    ensures a in Component(adj, region, a)
    ensures Component(adj, region, a) <= region
    ensures Closed(adj, region, Component(adj, region, a))
  {
    LinkedRefl(adj, region, a);
    forall b | b in Component(adj, region, a) ensures b in region {
      LinkedEnds(adj, region, a, b);
    }
    forall p, q | p in Component(adj, region, a) && p < |adj| && q in adj[p] && q in region
      ensures q in Component(adj, region, a)
    {
      LinkedStep(adj, region, a, p, q);
    }
  }

  /** Members of a component have that same component. */
  lemma ComponentOfMember(adj: Adjacency, region: set<nat>, a: nat, b: nat)
    requires WellFormed(adj) && a < |adj| && a in region && b in Component(adj, region, a)
    ensures Component(adj, region, b) == Component(adj, region, a)
  {
    ComponentClosed(adj, region, a);
    LinkedSym(adj, region, a, b);
    forall c | c in Component(adj, region, a) ensures Linked(adj, region, b, c) {
      LinkedTrans(adj, region, b, a, c);
    }
    ComponentByClosure(adj, region, b, Component(adj, region, a));
  }
}
