/** The liberty planes of the observation: one pass over the stones with one shared visited set. */
module LibertyPlanes {
  import opened Topology
  import opened GoRules
  import opened GoInvariants

  const OWN_LIBERTIES_1 := 7
  const OPPONENT_LIBERTIES_1 := 10
  const CHANNEL_COUNT := 30

  /** The plane a stone belongs to: by colour relative to the side to move, and by 1, 2 or 3+ liberties of its group. */
  ghost function LibertyChannel(adj: Adjacency, b: Board, side: Stone, p: nat): (channel: nat)
    requires p < |b|
    ensures OWN_LIBERTIES_1 <= channel < OWN_LIBERTIES_1 + 6
  {
    var count := |Liberties(adj, b, Group(adj, b, p))|;
    (if b[p] == side then OWN_LIBERTIES_1 else OPPONENT_LIBERTIES_1) + (if count <= 1 then 0 else if count == 2 then 1 else 2)
  }

  /** How many empty points the group of a stone touches. */
  ghost function LibertyCount(adj: Adjacency, b: Board, p: nat): nat
    requires p < |b|
  {
    |Liberties(adj, b, Group(adj, b, p))|
  }

  /** The six planes of one point, told by colour and number of liberties; what is not marked keeps its value. */
  ghost predicate PlanesTell(adj: Adjacency, b: Board, side: Stone, p: nat, before: seq<real>, planes: seq<real>)
    requires p < |b| && |before| == |planes| == 6
  {
    var own, other, count := b[p] == side, b[p] != Empty && b[p] != side, LibertyCount(adj, b, p);
    && planes[0] == (if own && count == 1 then 1.0 else before[0])
    && planes[1] == (if own && count == 2 then 1.0 else before[1])
    && planes[2] == (if own && count >= 3 then 1.0 else before[2])
    && planes[3] == (if other && count == 1 then 1.0 else before[3])
    && planes[4] == (if other && count == 2 then 1.0 else before[4])
    && planes[5] == (if other && count >= 3 then 1.0 else before[5])
  }

  /** On six planes that were zero, a stone with a liberty is marked once and an empty point not at all. */
  lemma MarkedOnce(adj: Adjacency, b: Board, side: Stone, p: nat, before: seq<real>, planes: seq<real>)
    requires p < |b| && |before| == |planes| == 6 && side != Empty && PlanesTell(adj, b, side, p, before, planes)
    requires forall c :: 0 <= c < 6 ==> before[c] == 0.0
    ensures b[p] == Empty ==> forall c :: 0 <= c < 6 ==> planes[c] == 0.0
    ensures b[p] != Empty && LibertyCount(adj, b, p) > 0 ==>
              exists c :: 0 <= c < 6 && planes[c] == 1.0 && forall d :: 0 <= d < 6 && d != c ==> planes[d] == 0.0
  {
    hide LibertyCount;
    var count := LibertyCount(adj, b, p);
    var c := (if b[p] == side then 0 else 3) + (if count == 1 then 0 else if count == 2 then 1 else 2);
    if b[p] != Empty && count > 0 {
      assert planes[c] == 1.0;
    }
  }

  lemma ChannelMeans(adj: Adjacency, b: Board, side: Stone, p: nat)
    requires p < |b| && side != Empty && b[p] != Empty && !Dead(adj, b, p)
    ensures var count := LibertyCount(adj, b, p);
      LibertyChannel(adj, b, side, p) == (if b[p] == side then 7 else 10) + (if count == 1 then 0 else if count == 2 then 1 else 2) && count >= 1
  {
    hide Group, Liberties;
  }

  lemma ChannelTells(adj: Adjacency, b: Board, side: Stone, p: nat, before: seq<real>, planes: seq<real>)
    requires p < |b| && |before| == |planes| == 6 && side != Empty && (b[p] != Empty ==> !Dead(adj, b, p))
    requires forall c :: 0 <= c < 6 ==>
               planes[c] == if b[p] != Empty && LibertyChannel(adj, b, side, p) == 7 + c then 1.0 else before[c]
    ensures PlanesTell(adj, b, side, p, before, planes)
  {
    hide Dead, LibertyCount, LibertyChannel;
    if b[p] != Empty {
      ChannelMeans(adj, b, side, p);
    }
  }

  ghost predicate Flooding(adj: Adjacency, b: Board, start: nat, group: set<nat>, liberties: set<nat>)
    requires start < |b|
  {
    && start in group && group <= UpTo(|adj|) && group <= Stones(b, b[start])
    && (forall p :: p in group ==> Linked(adj, Stones(b, b[start]), start, p))
    && liberties <= Liberties(adj, b, group)
  }

  ghost predicate Surveyed(adj: Adjacency, b: Board, color: Stone, group: set<nat>, liberties: set<nat>, p: nat)
    requires WellFormed(adj) && |b| == |adj|
  {
    p < |adj| && forall i :: 0 <= i < |adj[p]| ==>
      && (b[adj[p][i]] == Empty ==> adj[p][i] in liberties)
      && (b[adj[p][i]] == color ==> adj[p][i] in group)
  }

  /** One popped stone: empty neighbours are liberties, unvisited neighbours of the colour join the group. */
  method ExpandStone(adj: Adjacency, b: Board, start: nat, current: nat, ghost before: set<nat>,
                     g0: set<nat>, v0: set<nat>, l0: set<nat>, s0: seq<nat>)
    returns (group: set<nat>, visited: set<nat>, liberties: set<nat>, stack: seq<nat>)
    requires WellFormed(adj) && |b| == |adj| && start < |b| && b[start] != Empty
    requires Flooding(adj, b, start, g0, l0) && current in g0 && v0 == before + g0
    requires before !! Group(adj, b, start)
    requires forall p :: p in s0 ==> p in g0
    ensures Flooding(adj, b, start, group, liberties) && g0 <= group && l0 <= liberties && visited == before + group
    ensures Surveyed(adj, b, b[start], group, liberties, current)
    ensures forall p :: p in stack <==> p in s0 || (p in group && p !in g0)
    ensures group == g0 ==> stack == s0
  {
    var color := b[start];
    group, visited, liberties, stack := g0, v0, l0, s0;
    var i := 0;
    while i < |adj[current]|
      invariant 0 <= i <= |adj[current]|
      invariant Flooding(adj, b, start, group, liberties) && g0 <= group && l0 <= liberties && visited == before + group
      invariant forall j :: 0 <= j < i ==>
                  && (b[adj[current][j]] == Empty ==> adj[current][j] in liberties)
                  && (b[adj[current][j]] == color ==> adj[current][j] in group)
      invariant forall p :: p in stack <==> p in s0 || (p in group && p !in g0)
      invariant group == g0 ==> stack == s0
    {
      var neighbor := adj[current][i];
      var stone := b[neighbor];
      if stone == Empty {
        assert neighbor in Liberties(adj, b, group);
        liberties := liberties + {neighbor};
      } else if stone == color {
        LinkedStep(adj, Stones(b, color), start, current, neighbor);
        if neighbor !in visited {
          visited := visited + {neighbor};
          group := group + {neighbor};
          stack := stack + [neighbor];
        }
      }
      i := i + 1;
    }
  }

  /** The flood fill of one group: the shared visited set never hides a member, because earlier groups are whole. */
  method FloodGroup(adj: Adjacency, b: Board, start: nat, visited0: set<nat>)
    returns (group: set<nat>, visited: set<nat>, liberties: set<nat>)
    requires WellFormed(adj) && |b| == |adj| && start < |b| && b[start] != Empty
    requires visited0 !! Group(adj, b, start)
    ensures group == Group(adj, b, start) && visited == visited0 + group && liberties == Liberties(adj, b, group)
  {
    hide Flooding, Stones, Component, Liberties;
    FloodStart(adj, b, start);
    group, visited, liberties := {start}, visited0 + {start}, {};
    var stack: seq<nat> := [start];
    while stack != []
      invariant Flooding(adj, b, start, group, liberties) && visited == visited0 + group
      invariant forall p :: p in stack ==> p in group
      invariant forall p :: p in group && p !in stack ==> Surveyed(adj, b, b[start], group, liberties, p)
      decreases UpTo(|adj|) - group, |stack|
    {
      FloodInRange(adj, b, start, group, liberties);
      var current := stack[|stack| - 1];
      var below := stack[..|stack| - 1];
      assert forall p :: p in stack <==> p in below || p == current;
      group, visited, liberties, stack := ExpandStone(adj, b, start, current, visited0, group, visited, liberties, below);
    }
    FloodDone(adj, b, start, group, liberties);
  }

  lemma FloodStart(adj: Adjacency, b: Board, start: nat)
    requires |b| == |adj| && start < |b|
    ensures Flooding(adj, b, start, {start}, {})
  {
    LinkedRefl(adj, Stones(b, b[start]), start);
  }

  lemma FloodInRange(adj: Adjacency, b: Board, start: nat, group: set<nat>, liberties: set<nat>)
    requires start < |b| && Flooding(adj, b, start, group, liberties)
    ensures group <= UpTo(|adj|)
  {
  }

  /** A fill with nothing left on the stack is the whole group with all its liberties. */
  lemma FloodDone(adj: Adjacency, b: Board, start: nat, group: set<nat>, liberties: set<nat>)
    requires WellFormed(adj) && |b| == |adj| && start < |b| && b[start] != Empty && Flooding(adj, b, start, group, liberties)
    requires forall p :: p in group ==> Surveyed(adj, b, b[start], group, liberties, p)
    ensures group == Group(adj, b, start) && liberties == Liberties(adj, b, group)
  {
    hide Linked;
    forall p, q | p in group && p < |adj| && q in adj[p]
      ensures (b[q] == Empty ==> q in liberties) && (b[q] == b[start] ==> q in group)
    {
      assert Surveyed(adj, b, b[start], group, liberties, p);
    }
    ComponentByClosure(adj, Stones(b, b[start]), start, group);
  }

  ghost predicate WholeGroups(adj: Adjacency, b: Board, visited: set<nat>) {
    forall p, q :: p in visited && p < |b| && q in Group(adj, b, p) ==> q in visited
  }

  lemma AddGroup(adj: Adjacency, b: Board, side: Stone, visited: set<nat>, start: nat)
    requires WellFormed(adj) && |b| == |adj| && start < |b| && b[start] != Empty && start !in visited
    requires WholeGroups(adj, b, visited)
    ensures visited !! Group(adj, b, start) && start in Group(adj, b, start)
    ensures WholeGroups(adj, b, visited + Group(adj, b, start))
    ensures forall p :: p in Group(adj, b, start) ==>
              && p < |b| && b[p] == b[start] && Group(adj, b, p) == Group(adj, b, start)
              && LibertyChannel(adj, b, side, p) == LibertyChannel(adj, b, side, start)
  {
    GroupOfSelf(adj, b, start);
    forall p | p in Group(adj, b, start)
      ensures p !in visited && p < |b| && b[p] == b[start] && Group(adj, b, p) == Group(adj, b, start)
    {
      GroupOfMember(adj, b, start, p);
    }
  }

  lemma NothingVisited(adj: Adjacency, b: Board)
    ensures WholeGroups(adj, b, {})
  {
  }

  method MarkPlane(destination: array2<real>, channel: nat, group: set<nat>)
    requires channel < destination.Length0 && forall p :: p in group ==> p < destination.Length1
    modifies destination
    ensures forall ch, p :: 0 <= ch < destination.Length0 && 0 <= p < destination.Length1 ==>
              destination[ch, p] == if ch == channel && p in group then 1.0 else old(destination[ch, p])
  {
    var rest := group;
    while rest != {}
      invariant rest <= group
      invariant forall ch, p :: 0 <= ch < destination.Length0 && 0 <= p < destination.Length1 ==>
                  destination[ch, p] == if ch == channel && p in group && p !in rest then 1.0 else old(destination[ch, p])
    {
      var p :| p in rest;
      destination[channel, p] := 1.0;
      rest := rest - {p};
    }
  }

  /** The writer fails exactly on a board that holds a group without liberties; otherwise the six planes tell
      of every point whether it is an own or an opponent stone whose group has one, two, or three or more liberties,
      and every other entry is left as it was. */
  method WriteLiberties(adj: Adjacency, destination: array2<real>, b: Board, side: Stone) returns (ok: bool)
    requires WellFormed(adj) && |b| == |adj| && side != Empty
    requires destination.Length0 == CHANNEL_COUNT && destination.Length1 == |b|
    modifies destination
    ensures ok <==> AllAlive(adj, b)
    ensures ok ==> forall ch, p :: 0 <= ch < CHANNEL_COUNT && 0 <= p < |b| ==>
              destination[ch, p] == if b[p] != Empty && ch == LibertyChannel(adj, b, side, p) then 1.0 else old(destination[ch, p])
    ensures ok ==> forall ch, p :: 0 <= ch < CHANNEL_COUNT && 0 <= p < |b| && !(7 <= ch <= 12) ==> destination[ch, p] == old(destination[ch, p])
    ensures ok ==> forall p: nat :: p < |b| ==>
              PlanesTell(adj, b, side, p, old([destination[7, p], destination[8, p], destination[9, p], destination[10, p], destination[11, p], destination[12, p]]),
                         [destination[7, p], destination[8, p], destination[9, p], destination[10, p], destination[11, p], destination[12, p]])
  {
    hide Group, WellFormed, WholeGroups, LibertyChannel, PlanesTell, Liberties;
    var visited: set<nat> := {};
    assert WholeGroups(adj, b, visited) by { NothingVisited(adj, b); }
    for point := 0 to |b|
      invariant WholeGroups(adj, b, visited) && visited <= UpTo(|b|)
      invariant forall p :: p in visited ==> b[p] != Empty && !Dead(adj, b, p)
      invariant forall p :: 0 <= p < point && b[p] != Empty ==> p in visited
      invariant forall ch, p :: 0 <= ch < CHANNEL_COUNT && 0 <= p < |b| ==>
                  destination[ch, p] == if p in visited && ch == LibertyChannel(adj, b, side, p) then 1.0 else old(destination[ch, p])
    {
      if b[point] != Empty && point !in visited {
        AddGroup(adj, b, side, visited, point);
        var group, liberties;
        ghost var before := visited;
        group, visited, liberties := FloodGroup(adj, b, point, visited);
        var count := |liberties|;
        if count == 0 {
          assert Dead(adj, b, point);
          return false;
        }
        var bucket := if count == 1 then 0 else if count == 2 then 1 else 2;
        var base := if b[point] == side then OWN_LIBERTIES_1 else OPPONENT_LIBERTIES_1;
        ChannelMeans(adj, b, side, point);
        forall p | p in group ensures p < |b| && b[p] != Empty && !Dead(adj, b, p) {
          assert Liberties(adj, b, Group(adj, b, p)) == liberties;
        }
        MarkPlane(destination, base + bucket, group);
      }
    }
    forall p: nat | p < |b|
      ensures PlanesTell(adj, b, side, p, old([destination[7, p], destination[8, p], destination[9, p], destination[10, p], destination[11, p], destination[12, p]]),
                         [destination[7, p], destination[8, p], destination[9, p], destination[10, p], destination[11, p], destination[12, p]])
    {
      var before := old([destination[7, p], destination[8, p], destination[9, p], destination[10, p], destination[11, p], destination[12, p]]);
      var planes := [destination[7, p], destination[8, p], destination[9, p], destination[10, p], destination[11, p], destination[12, p]];
      ChannelTells(adj, b, side, p, before, planes);
    }
    return true;
  }

  /** In every game the writer succeeds: the case it guards against cannot arise. */
  lemma GamesNeverLackLiberties(adj: Adjacency, actions: seq<Action>)
    requires WellFormed(adj) && Play(adj, Initial(adj), actions).Ok?
    ensures var s := Play(adj, Initial(adj), actions).value;
      forall p :: 0 <= p < |s.stones| && s.stones[p] != Empty ==>
        |Liberties(adj, s.stones, Group(adj, s.stones, p))| >= 1
  {
    NoDeadGroups(adj, actions);
  }
}
