/** The queue search from several sources, and what distance means on the cube. */
module Distances {
  import opened Topology

  /** A walk of |walk| - 1 steps from a source to p. */
  ghost predicate Walk(adj: Adjacency, sources: set<nat>, walk: seq<nat>, p: nat) {
    && |walk| > 0 && walk[0] in sources && walk[|walk| - 1] == p
    && (forall i :: 0 <= i < |walk| ==> walk[i] < |adj|)
    && (forall i :: 0 <= i < |walk| - 1 ==> walk[i + 1] in adj[walk[i]])
  }

  ghost predicate Reachable(adj: Adjacency, sources: set<nat>, p: nat) {
    exists walk :: Walk(adj, sources, walk, p)
  }

  /** d steps suffice to reach p from a source, and no walk is shorter. */
  ghost predicate IsDistance(adj: Adjacency, sources: set<nat>, p: nat, d: nat) {
    && (exists walk :: Walk(adj, sources, walk, p) && |walk| == d + 1)
    && (forall walk :: Walk(adj, sources, walk, p) ==> |walk| >= d + 1)
  }

  lemma DistanceUnique(adj: Adjacency, sources: set<nat>, p: nat, d: nat, d': nat)
    requires IsDistance(adj, sources, p, d) && IsDistance(adj, sources, p, d')
    ensures d == d'
  {
    var walk :| Walk(adj, sources, walk, p) && |walk| == d + 1;
    var walk' :| Walk(adj, sources, walk', p) && |walk'| == d' + 1;
  }

  ghost predicate StepBack(adj: Adjacency, h: seq<int>, p: nat, w: nat) {
    w < |adj| && w < |h| && p < |h| && p in adj[w] && h[w] == h[p] - 1
  }

  /** A labelling that is zero exactly on the sources, grows by at most one along an edge,
      and can always be followed back by one. */
  ghost predicate Certifies(adj: Adjacency, sources: set<nat>, h: seq<int>) {
    && |h| == |adj|
    && (forall p :: 0 <= p < |h| ==> h[p] >= 0 && (h[p] == 0 <==> p in sources))
    && (forall p, q :: 0 <= p < |h| && q in adj[p] && q < |h| ==> h[q] <= h[p] + 1)
    && (forall p: nat :: p < |h| && h[p] > 0 ==> exists w :: StepBack(adj, h, p, w))
  }

  lemma {:induction false} WalkNoShorter(adj: Adjacency, sources: set<nat>, h: seq<int>, walk: seq<nat>, p: nat)
    requires Certifies(adj, sources, h) && Walk(adj, sources, walk, p)
    ensures p < |h| && |walk| >= h[p] + 1
    decreases |walk|
  {
    if |walk| > 1 {
      var front := walk[..|walk| - 1];
      var last := front[|front| - 1];
      assert walk[|walk| - 2 + 1] in adj[walk[|walk| - 2]];
      WalkNoShorter(adj, sources, h, front, last);
    }
  }

  lemma {:induction false} WalkExists(adj: Adjacency, sources: set<nat>, h: seq<int>, p: nat) returns (walk: seq<nat>)
    requires Certifies(adj, sources, h) && p < |h|
    ensures Walk(adj, sources, walk, p) && |walk| == h[p] + 1
    decreases h[p]
  {
    if h[p] == 0 {
      walk := [p];
    } else {
      var w :| StepBack(adj, h, p, w);
      var front := WalkExists(adj, sources, h, w);
      WalkOn(adj, sources, front, w, p);
      walk := front + [p];
    }
  }

  lemma WalkOn(adj: Adjacency, sources: set<nat>, walk: seq<nat>, w: nat, p: nat)
    requires Walk(adj, sources, walk, w) && w < |adj| && p < |adj| && p in adj[w]
    ensures Walk(adj, sources, walk + [p], p)
  {
  }

  /** Such a labelling is the distance. */
  lemma CertificateIsDistance(adj: Adjacency, sources: set<nat>, h: seq<int>, p: nat)
    requires Certifies(adj, sources, h) && p < |h|
    ensures h[p] >= 0 && IsDistance(adj, sources, p, h[p])
  {
    var walk := WalkExists(adj, sources, h, p);
    forall walk | Walk(adj, sources, walk, p) ensures |walk| >= h[p] + 1 {
      WalkNoShorter(adj, sources, h, walk, p);
    }
  }

  // ----- the search -----

  /** Found points (label not -1) are labelled consistently. */
  ghost predicate Labelled(adj: Adjacency, sources: set<nat>, d: seq<int>) {
    && |d| == |adj|
    && (forall p :: 0 <= p < |d| ==> d[p] >= -1 && (d[p] == 0 ==> p in sources))
    && (forall p: nat :: p < |d| && d[p] > 0 ==> exists w :: StepBack(adj, d, p, w))
  }

  /** The queue holds different found points, labelled m before m + 1; everything else found is labelled at most m. */
  ghost predicate Queued(d: seq<int>, queue: seq<nat>, m: int) {
    && m >= 0
    && (forall i :: 0 <= i < |queue| ==> queue[i] < |d| && m <= d[queue[i]] <= m + 1)
    && (forall i, j :: 0 <= i < j < |queue| ==> queue[i] != queue[j] && d[queue[i]] <= d[queue[j]])
    && (forall p: nat :: p < |d| && p !in queue ==> d[p] <= m)
  }

  /** All neighbours of p are found, at most one step further. */
  ghost predicate Expanded(adj: Adjacency, d: seq<int>, p: nat) {
    p < |d| && p < |adj| && forall q :: q in adj[p] ==> q < |d| && 0 <= d[q] <= d[p] + 1
  }

  ghost predicate Done(adj: Adjacency, d: seq<int>, queue: seq<nat>) {
    forall p: nat :: p < |d| && d[p] >= 0 && p !in queue ==> Expanded(adj, d, p)
  }

  lemma FindKeepsLabels(adj: Adjacency, sources: set<nat>, d: seq<int>, point: nat, neighbor: nat)
    requires WellFormed(adj) && Labelled(adj, sources, d)
    requires point < |d| && d[point] >= 0 && neighbor in adj[point] && neighbor < |d| && d[neighbor] == -1
    ensures Labelled(adj, sources, d[neighbor := d[point] + 1])
  {
    var d' := d[neighbor := d[point] + 1];
    forall p: nat | p < |d'| && d'[p] > 0 ensures exists w :: StepBack(adj, d', p, w) {
      if p == neighbor {
        assert StepBack(adj, d', p, point);
      } else {
        var w :| StepBack(adj, d, p, w);
        assert StepBack(adj, d', p, w);
      }
    }
  }

  lemma FindKeepsQueue(d: seq<int>, queue: seq<nat>, m: int, neighbor: nat)
    requires Queued(d, queue, m) && neighbor < |d| && d[neighbor] == -1
    ensures Queued(d[neighbor := m + 1], queue + [neighbor], m)
  {
    var queue' := queue + [neighbor];
    assert queue'[|queue|] == neighbor;
    assert forall x :: x in queue' <==> x in queue || x == neighbor;
  }

  ghost function FoundSet(d: seq<int>): set<nat> {
    set p: nat | p < |d| && d[p] >= 0
  }

  /** Labels are never changed once given, and whatever was found since has joined the queue. */
  ghost predicate Grew(d: seq<int>, queue: seq<nat>, d': seq<int>, queue': seq<nat>) {
    && |d'| == |d|
    && (forall p :: 0 <= p < |d| && d[p] >= 0 ==> d'[p] == d[p])
    && (forall p :: p in queue ==> p in queue')
    && (forall p: nat :: p < |d| && d[p] < 0 && d'[p] >= 0 ==> p in queue')
    && ((queue' == queue && d' == d) || FoundSet(d) < FoundSet(d'))
  }

  lemma GrewNothing(d: seq<int>, queue: seq<nat>)
    ensures Grew(d, queue, d, queue)
  {
  }

  lemma GrowsOn(d0: seq<int>, q0: seq<nat>, d: seq<int>, q: seq<nat>, neighbor: nat, v: int)
    requires Grew(d0, q0, d, q) && neighbor < |d| && d[neighbor] < 0 <= v
    ensures Grew(d0, q0, d[neighbor := v], q + [neighbor])
  {
    assert neighbor in FoundSet(d[neighbor := v]) && neighbor !in FoundSet(d0);
    assert forall x :: x in q + [neighbor] <==> x in q || x == neighbor;
  }

  lemma LabelBounds(adj: Adjacency, sources: set<nat>, d: seq<int>, queue: seq<nat>, m: int, p: nat)
    requires Labelled(adj, sources, d) && Queued(d, queue, m) && p < |d|
    ensures -1 <= d[p] <= m + 1
  {
    if p in queue {
      var i :| 0 <= i < |queue| && queue[i] == p;
    }
  }

  /** Looking at one neighbour: labelled and appended when new, otherwise already close enough. */
  method Discover(adj: Adjacency, d: array<int>, point: nat, neighbor: nat, queue: seq<nat>, ghost sources: set<nat>)
    returns (queue': seq<nat>)
    requires WellFormed(adj) && d.Length == |adj| && point < |adj| && d[point] >= 0 && neighbor in adj[point]
    requires Labelled(adj, sources, d[..]) && Queued(d[..], queue, d[point])
    modifies d
    ensures Labelled(adj, sources, d[..]) && Queued(d[..], queue', old(d[point])) && d[point] == old(d[point])
    ensures 0 <= d[neighbor] <= d[point] + 1
    ensures (queue' == queue && d[..] == old(d[..])) ||
            (old(d[neighbor]) < 0 && d[..] == old(d[..])[neighbor := d[point] + 1] && queue' == queue + [neighbor])
  {
    hide Labelled, Queued;
    ghost var before := d[..];
    LabelBounds(adj, sources, before, queue, d[point], neighbor);
    queue' := queue;
    if d[neighbor] == -1 {
      FindKeepsLabels(adj, sources, before, point, neighbor);
      FindKeepsQueue(before, queue, d[point], neighbor);
      d[neighbor] := d[point] + 1;
      queue' := queue + [neighbor];
      assert d[..] == before[neighbor := before[point] + 1];
    }
  }

  /** One point taken from the front, with all its neighbours. */
  method Expand(adj: Adjacency, d: array<int>, point: nat, rest: seq<nat>, ghost sources: set<nat>) returns (queue: seq<nat>)
    requires WellFormed(adj) && d.Length == |adj| && point < |adj| && d[point] >= 0
    requires Labelled(adj, sources, d[..]) && Queued(d[..], rest, d[point])
    modifies d
    ensures Labelled(adj, sources, d[..]) && Queued(d[..], queue, old(d[point]))
    ensures Grew(old(d[..]), rest, d[..], queue) && Expanded(adj, d[..], point)
  {
    hide Labelled, Queued, Grew;
    queue := rest;
    ghost var m, d0 := d[point], d[..];
    assert Grew(d0, rest, d0, rest) by { GrewNothing(d0, rest); }
    for i := 0 to |adj[point]|
      invariant Labelled(adj, sources, d[..]) && Queued(d[..], queue, m) && d[point] == m
      invariant Grew(d0, rest, d[..], queue)
      invariant forall j :: 0 <= j < i ==> 0 <= d[adj[point][j]] <= m + 1
    {
      ghost var before, queued := d[..], queue;
      queue := Discover(adj, d, point, adj[point][i], queue, sources);
      if d[..] != before {
        GrowsOn(d0, rest, before, queued, adj[point][i], m + 1);
      }
      forall j | 0 <= j < i ensures 0 <= d[adj[point][j]] <= m + 1 {
        assert before[adj[point][j]] >= 0;
      }
    }
  }

  lemma DoneAfter(adj: Adjacency, d: seq<int>, queue: seq<nat>, d': seq<int>, queue': seq<nat>)
    requires |queue| > 0 && |d| == |adj| && Done(adj, d, queue) && Grew(d, queue[1..], d', queue') && Expanded(adj, d', queue[0])
    ensures Done(adj, d', queue')
  {
    forall p: nat | p < |d'| && d'[p] >= 0 && p !in queue' ensures Expanded(adj, d', p) {
      if p != queue[0] {
        assert p !in queue by {
          assert forall x :: x in queue ==> x == queue[0] || x in queue[1..];
        }
        assert Expanded(adj, d, p);
      }
    }
  }

  lemma QueuedLater(d: seq<int>, queue: seq<nat>, m: int)
    requires Queued(d, queue, m) && queue != []
    ensures Queued(d, queue, d[queue[0]])
  {
  }

  lemma QueuedRest(d: seq<int>, queue: seq<nat>, m: int)
    requires Queued(d, queue, m) && queue != [] && d[queue[0]] == m
    ensures Queued(d, queue[1..], m)
  {
    assert forall x :: x in queue <==> x == queue[0] || x in queue[1..];
  }

  function SourceSet(sources: seq<nat>): set<nat> {
    set s | s in sources
  }

  datatype Found = DistancesAre(d: seq<int>) | Disconnected

  /** Sources get label 0 and enter the queue once each. */
  method Seed(adj: Adjacency, d: array<int>, sources: seq<nat>, ghost all: set<nat>) returns (queue: seq<nat>)
    requires WellFormed(adj) && d.Length == |adj| && (forall i :: 0 <= i < |sources| ==> sources[i] < |adj|)
    requires all == SourceSet(sources)
    requires forall p :: 0 <= p < d.Length ==> d[p] == -1
    modifies d
    ensures Labelled(adj, all, d[..]) && Queued(d[..], queue, 0)
    ensures forall p: nat :: p < d.Length ==> d[p] == (if p in all then 0 else -1) && (d[p] >= 0 ==> p in queue)
  {
    queue := [];
    for i := 0 to |sources|
      invariant forall p: nat :: p < d.Length ==> d[p] == (if p in sources[..i] then 0 else -1) && (d[p] == 0 <==> p in queue)
      invariant forall j :: 0 <= j < |queue| ==> queue[j] < d.Length
      invariant forall j, k :: 0 <= j < k < |queue| ==> queue[j] != queue[k]
    {
      var source := sources[i];
      assert forall x :: x in sources[..i + 1] <==> x in sources[..i] || x == source;
      if d[source] == -1 {
        d[source] := 0;
        queue := queue + [source];
      }
    }
    assert sources[..|sources|] == sources;
    forall j | 0 <= j < |queue| ensures d[queue[j]] == 0 {
      assert queue[j] in queue;
    }
  }

  /** When the queue is empty, the found points are closed under edges and their labels certify themselves. */
  lemma SearchOver(adj: Adjacency, sources: set<nat>, d: seq<int>)
    requires WellFormed(adj) && Labelled(adj, sources, d) && Done(adj, d, [])
    requires forall s :: s in sources ==> s < |d| && d[s] == 0
    ensures (forall p :: 0 <= p < |d| ==> d[p] >= 0) ==> Certifies(adj, sources, d)
    ensures forall p: nat :: p < |d| && d[p] < 0 ==> !Reachable(adj, sources, p)
  {
    forall p: nat, walk | p < |d| && d[p] < 0 ensures !Walk(adj, sources, walk, p) {
      if Walk(adj, sources, walk, p) {
        WalkStaysFound(adj, sources, d, walk, p);
      }
    }
    if forall p :: 0 <= p < |d| ==> d[p] >= 0 {
      forall p, q | 0 <= p < |d| && q in adj[p] && q < |d| ensures d[q] <= d[p] + 1 {
        assert Expanded(adj, d, p);
      }
    }
  }

  lemma {:induction false} WalkStaysFound(adj: Adjacency, sources: set<nat>, d: seq<int>, walk: seq<nat>, p: nat)
    requires |d| == |adj| && Done(adj, d, []) && Walk(adj, sources, walk, p)
    requires forall s :: s in sources ==> s < |d| && d[s] == 0
    ensures p < |d| && d[p] >= 0
    decreases |walk|
  {
    if |walk| > 1 {
      var w := walk[|walk| - 2];
      WalkStaysFound(adj, sources, d, walk[..|walk| - 1], w);
      assert Expanded(adj, d, w);
      assert walk[|walk| - 2 + 1] in adj[w];
    }
  }

  ghost predicate SourcesZero(sources: set<nat>, d: seq<int>) {
    forall s :: s in sources ==> s < |d| && d[s] == 0
  }

  lemma GrewProgress(sources: set<nat>, d: seq<int>, queue: seq<nat>, d': seq<int>, queue': seq<nat>)
    requires Grew(d, queue, d', queue') && SourcesZero(sources, d)
    ensures SourcesZero(sources, d') && ((queue' == queue && d' == d) || FoundSet(d) < FoundSet(d'))
  {
  }

  lemma FrontOfQueue(adj: Adjacency, sources: set<nat>, d: seq<int>, queue: seq<nat>, m: int)
    requires Labelled(adj, sources, d) && Queued(d, queue, m) && queue != []
    ensures queue[0] < |d| == |adj| && d[queue[0]] >= 0 && Queued(d, queue[1..], d[queue[0]])
  {
    QueuedLater(d, queue, m);
    QueuedRest(d, queue, d[queue[0]]);
  }

  /** The loop over the queue. */
  method Search(adj: Adjacency, d: array<int>, start: seq<nat>, ghost all: set<nat>)
    requires WellFormed(adj) && d.Length == |adj| && Labelled(adj, all, d[..]) && Queued(d[..], start, 0)
    requires SourcesZero(all, d[..]) && Done(adj, d[..], start)
    modifies d
    ensures Labelled(adj, all, d[..]) && Done(adj, d[..], []) && SourcesZero(all, d[..])
  {
    hide Labelled, Queued, Done, Grew, SourcesZero, FoundSet;
    var queue := start;
    ghost var m := 0;
    while queue != []
      invariant Labelled(adj, all, d[..]) && Queued(d[..], queue, m) && Done(adj, d[..], queue) && SourcesZero(all, d[..])
      decreases UpTo(|adj|) - FoundSet(d[..]), |queue|
    {
      FrontOfQueue(adj, all, d[..], queue, m);
      var point := queue[0];
      m := d[point];
      ghost var before, queued := d[..], queue;
      queue := Expand(adj, d, point, queue[1..], all);
      DoneAfter(adj, before, queued, d[..], queue);
      GrewProgress(all, before, queued[1..], d[..], queue);
      MeasureDrops(adj, before, d[..]);
    }
  }

  lemma MeasureDrops(adj: Adjacency, d: seq<int>, d': seq<int>)
    requires |d| == |d'| == |adj|
    ensures FoundSet(d) < FoundSet(d') ==> UpTo(|adj|) - FoundSet(d') < UpTo(|adj|) - FoundSet(d)
  {
    if FoundSet(d) < FoundSet(d') {
      var x :| x in FoundSet(d') && x !in FoundSet(d);
      assert x in UpTo(|adj|) - FoundSet(d);
    }
  }

  lemma SearchResult(adj: Adjacency, sources: set<nat>, d: seq<int>)
    requires WellFormed(adj) && Labelled(adj, sources, d) && Done(adj, d, []) && SourcesZero(sources, d)
    ensures (exists p: nat :: p < |d| && d[p] == -1) <==> exists p: nat :: p < |adj| && !Reachable(adj, sources, p)
    ensures (forall p: nat :: p < |d| ==> d[p] != -1) ==>
              forall p: nat :: p < |adj| ==> d[p] >= 0 && IsDistance(adj, sources, p, d[p])
  {
    SearchOver(adj, sources, d);
    if forall p: nat :: p < |d| ==> d[p] != -1 {
      forall p: nat | p < |adj| ensures d[p] >= 0 && IsDistance(adj, sources, p, d[p]) && Reachable(adj, sources, p) {
        CertificateIsDistance(adj, sources, d, p);
        var walk :| Walk(adj, sources, walk, p) && |walk| == d[p] + 1;
      }
    }
  }

  /** The queue search computes the distance of every point to its nearest source,
      and gives up exactly when some point cannot be reached. */
  method ComputeDistances(adj: Adjacency, sources: seq<nat>) returns (r: Found)
    requires WellFormed(adj) && (forall i :: 0 <= i < |sources| ==> sources[i] < |adj|)
    ensures r.Disconnected? <==> exists p: nat :: p < |adj| && !Reachable(adj, SourceSet(sources), p)
    ensures r.DistancesAre? ==> |r.d| == |adj|
    ensures r.DistancesAre? ==> forall p: nat :: p < |adj| ==> r.d[p] >= 0 && IsDistance(adj, SourceSet(sources), p, r.d[p])
  {
    ghost var all := SourceSet(sources);
    var d := new int[|adj|](_ => -1);
    var queue := Seed(adj, d, sources, all);
    forall s | s in all ensures s < |adj| {
      var i :| 0 <= i < |sources| && sources[i] == s;
    }
    assert SourcesZero(all, d[..]) && Done(adj, d[..], queue);
    Search(adj, d, queue, all);
    SearchResult(adj, all, d[..]);
    r := DistancesAre(d[..]);
    if -1 in d[..] {
      r := Disconnected;
    }
  }
}
