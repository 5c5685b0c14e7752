/** Relabelling the points of a graph: rules, games and scores commute with every graph isomorphism. */
module Symmetry {
  import opened Topology
  import opened GoRules
  import opened GoInvariants
  import opened Scoring

  ghost predicate IsPermutation(pi: seq<nat>) {
    && (forall i :: 0 <= i < |pi| ==> pi[i] < |pi|)
    && (forall i, j :: 0 <= i < j < |pi| ==> pi[i] != pi[j])
  }

  ghost predicate Isomorphism(adj: Adjacency, adj': Adjacency, pi: seq<nat>) {
    && |pi| == |adj| == |adj'| && IsPermutation(pi)
    && (forall p: nat, q: nat :: p < |adj| && q < |adj| ==> (q in adj[p] <==> pi[q] in adj'[pi[p]]))
  }

  ghost function Image(pi: seq<nat>, s: set<nat>): set<nat> {
    set p | p in s && p < |pi| :: pi[p]
  }

  lemma {:induction false} ImageCount(pi: seq<nat>, s: set<nat>)
    requires IsPermutation(pi) && s <= UpTo(|pi|)
    ensures |Image(pi, s)| == |s|
    decreases s
  {
    if s == {} {
      assert Image(pi, s) == {};
    } else {
      var p :| p in s;
      ImageCount(pi, s - {p});
      assert Image(pi, s) == Image(pi, s - {p}) + {pi[p]};
      assert pi[p] !in Image(pi, s - {p});
    }
  }

  lemma EqualCount<T>(small: set<T>, large: set<T>)
    requires small <= large && |small| == |large|
    ensures small == large
  {
    assert large == small + (large - small);
  }

  /** A permutation reaches every point. */
  lemma Onto(pi: seq<nat>, q: nat)
    requires IsPermutation(pi) && q < |pi|
    ensures exists p :: 0 <= p < |pi| && pi[p] == q
  {
    var all := UpTo(|pi|);
    ImageCount(pi, all);
    EqualCount(Image(pi, all), all);
    assert q in Image(pi, all);
  }

  ghost function Source(pi: seq<nat>, q: nat): (p: nat)
    requires IsPermutation(pi) && q < |pi|
    ensures p < |pi| && pi[p] == q
  {
    Onto(pi, q);
    var p :| 0 <= p < |pi| && pi[p] == q;
    p
  }

  ghost function Permuted<T>(pi: seq<nat>, values: seq<T>): (r: seq<T>)
    requires IsPermutation(pi) && |values| == |pi|
    ensures |r| == |pi| && forall i :: 0 <= i < |pi| ==> r[pi[i]] == values[i]
  {
    seq(|pi|, q requires 0 <= q < |pi| => values[Source(pi, q)])
  }

  lemma PermutedUnique<T>(pi: seq<nat>, values: seq<T>, r: seq<T>)
    requires IsPermutation(pi) && |values| == |pi| == |r|
    requires forall i :: 0 <= i < |pi| ==> r[pi[i]] == values[i]
    ensures r == Permuted(pi, values)
  {
    forall q | 0 <= q < |pi| ensures r[q] == Permuted(pi, values)[q] {
      var p := Source(pi, q);
    }
  }

  lemma PermutedInjective<T>(pi: seq<nat>, v: seq<T>, w: seq<T>)
    requires IsPermutation(pi) && |v| == |w| == |pi| && Permuted(pi, v) == Permuted(pi, w)
    ensures v == w
  {
    forall i | 0 <= i < |pi| ensures v[i] == w[i] {
      assert Permuted(pi, v)[pi[i]] == v[i];
    }
  }

  datatype Permutation<+T> = Values(values: seq<T>) | LengthMismatch

  /** The scatter loop: each value goes to the image of its point. */
  method PermutePoints<T>(pi: seq<nat>, values: seq<T>) returns (r: Permutation<T>)
    requires IsPermutation(pi) && |pi| > 0
    ensures r == if |values| == |pi| then Values(Permuted(pi, values)) else LengthMismatch
  {
    if |values| != |pi| {
      return LengthMismatch;
    }
    var result := new T[|values|](_ => values[0]);
    for from := 0 to |pi|
      invariant forall i :: 0 <= i < from ==> result[pi[i]] == values[i]
    {
      result[pi[from]] := values[from];
    }
    PermutedUnique(pi, values, result[..]);
    r := Values(result[..]);
  }

  // ----- groups, liberties and captures -----

  lemma LinkedImage(adj: Adjacency, adj': Adjacency, pi: seq<nat>, region: set<nat>, a: nat, b: nat)
    requires Isomorphism(adj, adj', pi) && Linked(adj, region, a, b)
    ensures a < |pi| && b < |pi| && Linked(adj', Image(pi, region), pi[a], pi[b])
  {
    LinkedEnds(adj, region, a, b);
    var path :| PathBetween(adj, region, path, a, b);
    var image := seq(|path|, i requires 0 <= i < |path| => pi[path[i]]);
    assert PathBetween(adj', Image(pi, region), image, pi[a], pi[b]);
  }

  lemma ComponentImage(adj: Adjacency, adj': Adjacency, pi: seq<nat>, region: set<nat>, a: nat)
    requires WellFormed(adj) && WellFormed(adj') && Isomorphism(adj, adj', pi) && a in region && a < |adj|
    ensures Component(adj', Image(pi, region), pi[a]) == Image(pi, Component(adj, region, a))
  {
    var c := Component(adj, region, a);
    var region', c' := Image(pi, region), Image(pi, c);
    ComponentClosed(adj, region, a);
    forall p', q' | p' in c' && p' < |adj'| && q' in adj'[p'] && q' in region' ensures q' in c' {
      var p :| p in c && p < |pi| && pi[p] == p';
      var q :| q in region && q < |pi| && pi[q] == q';
      assert q in adj[p];
    }
    forall b' | b' in c' ensures b' < |adj'| && Linked(adj', region', pi[a], b') {
      var b :| b in c && b < |pi| && pi[b] == b';
      LinkedImage(adj, adj', pi, region, a, b);
    }
    ComponentByClosure(adj', region', pi[a], c');
  }

  lemma StonesImage(pi: seq<nat>, b: Board, color: Stone)
    requires IsPermutation(pi) && |b| == |pi|
    ensures Stones(Permuted(pi, b), color) == Image(pi, Stones(b, color))
  {
    forall q | q in Stones(Permuted(pi, b), color) ensures q in Image(pi, Stones(b, color)) {
      var p := Source(pi, q);
      assert p in Stones(b, color);
    }
  }

  lemma GroupImage(adj: Adjacency, adj': Adjacency, pi: seq<nat>, b: Board, p: nat)
    requires WellFormed(adj) && WellFormed(adj') && Isomorphism(adj, adj', pi) && |b| == |adj| && p < |b|
    ensures Group(adj', Permuted(pi, b), pi[p]) == Image(pi, Group(adj, b, p))
  {
    StonesImage(pi, b, b[p]);
    if b[p] == Empty {
      assert Image(pi, {}) == {};
    } else {
      assert p in Stones(b, b[p]);
      ComponentImage(adj, adj', pi, Stones(b, b[p]), p);
    }
  }

  lemma LibertiesImage(adj: Adjacency, adj': Adjacency, pi: seq<nat>, b: Board, g: set<nat>)
    requires WellFormed(adj) && WellFormed(adj') && Isomorphism(adj, adj', pi) && |b| == |adj| && g <= UpTo(|adj|)
    ensures Liberties(adj', Permuted(pi, b), Image(pi, g)) == Image(pi, Liberties(adj, b, g))
  {
    hide WellFormed, Liberties, Isomorphism;
    IsomorphismPermutes(adj, adj', pi);
    var l, l' := Liberties(adj, b, g), Liberties(adj', Permuted(pi, b), Image(pi, g));
    LibertiesInRange(adj, b, g);
    LibertiesInRange(adj', Permuted(pi, b), Image(pi, g));
    forall q' | q' in l' ensures q' in Image(pi, l) {
      LibertyImage(adj, adj', pi, b, g, Source(pi, q'));
    }
    forall q' | q' in Image(pi, l) ensures q' in l' {
      var q :| q in l && q < |pi| && pi[q] == q';
      LibertyImage(adj, adj', pi, b, g, q);
    }
  }

  lemma IsomorphismPermutes(adj: Adjacency, adj': Adjacency, pi: seq<nat>)
    requires Isomorphism(adj, adj', pi)
    ensures |pi| == |adj| == |adj'| && IsPermutation(pi)
  {
  }

  lemma LibertiesInRange(adj: Adjacency, b: Board, g: set<nat>)
    ensures forall q :: q in Liberties(adj, b, g) ==> q < |b|
  {
  }

  lemma LibertyImage(adj: Adjacency, adj': Adjacency, pi: seq<nat>, b: Board, g: set<nat>, q: nat)
    requires Isomorphism(adj, adj', pi) && |b| == |adj| && q < |b|
    ensures pi[q] in Liberties(adj', Permuted(pi, b), Image(pi, g)) <==> q in Liberties(adj, b, g)
  {
    hide Permuted;
    if pi[q] in Liberties(adj', Permuted(pi, b), Image(pi, g)) {
      var p' :| p' in Image(pi, g) && p' < |adj'| && pi[q] in adj'[p'];
      var p :| p in g && p < |pi| && pi[p] == p';
      assert q in adj[p];
    }
    if q in Liberties(adj, b, g) {
      var p :| p in g && p < |adj| && q in adj[p];
      assert pi[p] in Image(pi, g) && pi[q] in adj'[pi[p]];
    }
  }

  lemma DeadImage(adj: Adjacency, adj': Adjacency, pi: seq<nat>, b: Board, p: nat)
    requires WellFormed(adj) && WellFormed(adj') && Isomorphism(adj, adj', pi) && |b| == |adj| && p < |b|
    ensures Dead(adj', Permuted(pi, b), pi[p]) <==> Dead(adj, b, p)
  {
    hide Group, Liberties;
    var g := Group(adj, b, p);
    forall x | x in g ensures x in UpTo(|adj|) {
      GroupOfMember(adj, b, p, x);
    }
    LibertiesInRange(adj, b, g);
    GroupImage(adj, adj', pi, b, p);
    LibertiesImage(adj, adj', pi, b, g);
    var l := Liberties(adj, b, g);
    if x :| x in l {
      assert pi[x] in Image(pi, l);
    }
  }

  lemma TouchesImage(adj: Adjacency, adj': Adjacency, pi: seq<nat>, b: Board, point: nat, q: nat)
    requires WellFormed(adj) && WellFormed(adj') && Isomorphism(adj, adj', pi) && |b| == |adj| && q < |b| && point < |b|
    ensures Touches(adj', Permuted(pi, b), adj'[pi[point]], pi[q]) <==> Touches(adj, b, adj[point], q)
  {
    hide Group, WellFormed;
    GroupImage(adj, adj', pi, b, q);
    if Touches(adj, b, adj[point], q) {
      var r :| r in adj[point] && r in Group(adj, b, q);
      GroupOfMember(adj, b, q, r);
      assert pi[r] in adj'[pi[point]] && pi[r] in Image(pi, Group(adj, b, q));
    }
    if Touches(adj', Permuted(pi, b), adj'[pi[point]], pi[q]) {
      var r' :| r' in adj'[pi[point]] && r' in Group(adj', Permuted(pi, b), pi[q]);
      var r :| r in Group(adj, b, q) && r < |pi| && pi[r] == r';
      assert r in adj[point];
    }
  }

  lemma CapturedImage(adj: Adjacency, adj': Adjacency, pi: seq<nat>, b: Board, point: nat, color: Stone)
    requires WellFormed(adj) && WellFormed(adj') && Isomorphism(adj, adj', pi) && |b| == |adj| && point < |b|
    ensures Captured(adj', Permuted(pi, b), pi[point], color) == Image(pi, Captured(adj, b, point, color))
  {
    hide Dead, Touches, WellFormed;
    var b' := Permuted(pi, b);
    forall q: nat | q < |b| ensures pi[q] in Captured(adj', b', pi[point], color) <==> q in Captured(adj, b, point, color) {
      DeadImage(adj, adj', pi, b, q);
      TouchesImage(adj, adj', pi, b, point, q);
    }
    forall q' | q' in Captured(adj', b', pi[point], color) ensures q' in Image(pi, Captured(adj, b, point, color)) {
      var q := Source(pi, q');
    }
  }

  lemma ResolveImage(adj: Adjacency, adj': Adjacency, pi: seq<nat>, b: Board, point: nat, color: Stone)
    requires WellFormed(adj) && WellFormed(adj') && Isomorphism(adj, adj', pi) && |b| == |adj| && point < |b| && color != Empty
    ensures Resolve(adj', Permuted(pi, b), pi[point], color).0 == Image(pi, Resolve(adj, b, point, color).0)
    ensures Resolve(adj', Permuted(pi, b), pi[point], color).1 == Permuted(pi, Resolve(adj, b, point, color).1)
  {
    hide WellFormed, Captured, Image, Permuted, Remove, IsPermutation;
    var placed := b[point := color];
    PlacedImage(pi, b, point, color);
    CapturedImage(adj, adj', pi, placed, point, Opponent(color));
    RemoveImage(pi, placed, Captured(adj, placed, point, Opponent(color)));
  }

  lemma PlacedImage(pi: seq<nat>, b: Board, point: nat, color: Stone)
    requires IsPermutation(pi) && |b| == |pi| && point < |b|
    ensures Permuted(pi, b[point := color]) == Permuted(pi, b)[pi[point] := color]
  {
    PermutedUnique(pi, b[point := color], Permuted(pi, b)[pi[point] := color]);
  }

  lemma RemoveImage(pi: seq<nat>, b: Board, taken: set<nat>)
    requires IsPermutation(pi) && |b| == |pi|
    ensures Permuted(pi, Remove(b, taken)) == Remove(Permuted(pi, b), Image(pi, taken))
  {
    var after' := Remove(Permuted(pi, b), Image(pi, taken));
    forall i | 0 <= i < |pi| ensures after'[pi[i]] == Remove(b, taken)[i] {
      assert pi[i] in Image(pi, taken) <==> i in taken;
    }
    PermutedUnique(pi, Remove(b, taken), after');
  }

  // ----- actions and games -----

  ghost predicate Fits(pi: seq<nat>, s: State) {
    && |s.stones| == |pi|
    && (forall i :: 0 <= i < |s.history| ==> |s.history[i]| == |pi|)
    && (forall b :: b in s.membership ==> |b| == |pi|)
  }

  /** The rotated state: the board and every recorded position are relabelled, the rest is kept. */
  ghost function RotateState(pi: seq<nat>, s: State): State
    requires IsPermutation(pi) && Fits(pi, s)
  {
    s.(stones := Permuted(pi, s.stones),
       history := seq(|s.history|, i requires 0 <= i < |s.history| => Permuted(pi, s.history[i])),
       membership := set b | b in s.membership :: Permuted(pi, b))
  }

  /** The rotated action: PASS and malformed or out-of-range actions are kept, points are relabelled. */
  function RotateAction(pi: seq<nat>, a: Action): Action {
    match a
    case PointId(id) => if 0 <= id < |pi| then PointId(pi[id]) else a
    case _ => a
  }

  ghost function RotateTransition(pi: seq<nat>, t: Transition): Transition
    requires IsPermutation(pi) && Fits(pi, t.before) && Fits(pi, t.after)
  {
    Transition(RotateState(pi, t.before), RotateAction(pi, t.action), Image(pi, t.captured), RotateState(pi, t.after))
  }

  lemma SuperkoImage(pi: seq<nat>, s: State, b: Board)
    requires IsPermutation(pi) && Fits(pi, s) && |b| == |pi|
    ensures Permuted(pi, b) in RotateState(pi, s).membership <==> b in s.membership
  {
    if Permuted(pi, b) in RotateState(pi, s).membership {
      var m :| m in s.membership && Permuted(pi, m) == Permuted(pi, b);
      PermutedInjective(pi, m, b);
    }
  }

  lemma ProbeImage(adj: Adjacency, adj': Adjacency, pi: seq<nat>, s: State, point: nat)
    requires WellFormed(adj) && WellFormed(adj') && Isomorphism(adj, adj', pi)
    requires Shaped(adj, s) && Fits(pi, s) && point < |adj|
    ensures ProbePoint(adj', RotateState(pi, s), pi[point]) ==
            match ProbePoint(adj, s, point)
            case Rejected(reason) => Rejected(reason)
            case Ok(p) => Ok(ActionProbe(pi[point], Image(pi, p.captured), Permuted(pi, p.stones)))
  {
    hide WellFormed, Isomorphism, Dead, Resolve, Image;
    IsomorphismPermutes(adj, adj', pi);
    if s.stones[point] == Empty {
      ResolveImage(adj, adj', pi, s.stones, point, s.side);
      var after := Resolve(adj, s.stones, point, s.side).1;
      DeadImage(adj, adj', pi, after, point);
      SuperkoImage(pi, s, after);
    }
  }

  lemma ProbeShape(adj: Adjacency, s: State, point: nat)
    requires Shaped(adj, s) && point < |adj|
    ensures ProbePoint(adj, s, point).Ok? ==> |ProbePoint(adj, s, point).value.stones| == |adj|
  {
    hide Dead;
  }

  lemma AfterPointImage(pi: seq<nat>, s: State, stones: Board)
    requires IsPermutation(pi) && Fits(pi, s) && |stones| == |pi| && s.side != Empty
    ensures Fits(pi, AfterPoint(s, stones))
    ensures RotateState(pi, AfterPoint(s, stones)) == AfterPoint(RotateState(pi, s), Permuted(pi, stones))
  {
    var t, u := RotateState(pi, AfterPoint(s, stones)), AfterPoint(RotateState(pi, s), Permuted(pi, stones));
    assert t.history == u.history;
    forall b | b in t.membership ensures b in u.membership {
      var m :| m in s.membership + {stones} && Permuted(pi, m) == b;
    }
    forall b | b in u.membership ensures b in t.membership {
      if b in RotateState(pi, s).membership {
        var m :| m in s.membership && Permuted(pi, m) == b;
        assert m in AfterPoint(s, stones).membership;
      } else {
        assert stones in AfterPoint(s, stones).membership;
      }
    }
  }

  /** Rotating and then playing the rotated action is playing and then rotating: the same refusal for the same
      reason, or the relabelled captures, board, superko history and turn. */
  lemma RulesCommute(adj: Adjacency, adj': Adjacency, pi: seq<nat>, s: State, a: Action)
    requires WellFormed(adj) && WellFormed(adj') && Isomorphism(adj, adj', pi)
    requires Shaped(adj, s) && Fits(pi, s)
    ensures match ApplyAction(adj, s, a)
      case Rejected(reason) => ApplyAction(adj', RotateState(pi, s), RotateAction(pi, a)) == Rejected(reason)
      case Ok(t) => && Fits(pi, t.before) && Fits(pi, t.after)
                    && ApplyAction(adj', RotateState(pi, s), RotateAction(pi, a)) == Ok(RotateTransition(pi, t))
  {
    hide WellFormed, Isomorphism, ProbePoint, AfterPoint;
    IsomorphismPermutes(adj, adj', pi);
    match a
    case Pass =>
      if !s.Terminal() {
        assert Fits(pi, AfterPass(s));
        assert Image(pi, {}) == {};
        assert RotateState(pi, AfterPass(s)) == AfterPass(RotateState(pi, s));
      }
    case NotAnAction =>
    case PointId(id) =>
      if !s.Terminal() && 0 <= id < |adj| {
        ProbeImage(adj, adj', pi, s, id);
        match ProbePoint(adj, s, id)
        case Rejected(_) =>
        case Ok(p) =>
          ProbeShape(adj, s, id);
          AfterPointImage(pi, s, p.stones);
      }
  }

  /** The legal set is relabelled. */
  lemma LegalSetImage(adj: Adjacency, adj': Adjacency, pi: seq<nat>, s: State)
    requires WellFormed(adj) && WellFormed(adj') && Isomorphism(adj, adj', pi)
    requires Shaped(adj, s) && Fits(pi, s)
    ensures (set q: nat | q < |adj'| && LegalPoint(adj', RotateState(pi, s), q)) ==
            Image(pi, set p: nat | p < |adj| && LegalPoint(adj, s, p))
  {
    hide WellFormed, ProbePoint;
    forall p: nat | p < |adj| ensures LegalPoint(adj', RotateState(pi, s), pi[p]) <==> LegalPoint(adj, s, p) {
      ProbeImage(adj, adj', pi, s, p);
    }
    forall q: nat | q < |adj'| && LegalPoint(adj', RotateState(pi, s), q)
      ensures q in Image(pi, set p: nat | p < |adj| && LegalPoint(adj, s, p))
    {
      var p := Source(pi, q);
    }
  }

  /** Whole games commute: a game refused stays refused, a game played ends in the rotated state. */
  lemma {:induction false} GamesCommute(adj: Adjacency, adj': Adjacency, pi: seq<nat>, s: State, actions: seq<Action>)
    requires WellFormed(adj) && WellFormed(adj') && Isomorphism(adj, adj', pi)
    requires Shaped(adj, s) && Fits(pi, s)
    ensures var rotated := seq(|actions|, i requires 0 <= i < |actions| => RotateAction(pi, actions[i]));
      match Play(adj, s, actions)
      case Rejected(reason) => Play(adj', RotateState(pi, s), rotated) == Rejected(reason)
      case Ok(t) => Fits(pi, t) && Play(adj', RotateState(pi, s), rotated) == Ok(RotateState(pi, t))
    decreases |actions|
  {
    hide WellFormed, Isomorphism, ApplyAction, RotateAction, IsPermutation;
    IsomorphismPermutes(adj, adj', pi);
    var rotated := seq(|actions|, i requires 0 <= i < |actions| => RotateAction(pi, actions[i]));
    if actions != [] {
      var last := |actions| - 1;
      GamesCommute(adj, adj', pi, s, actions[..last]);
      assert rotated[..last] == seq(last, i requires 0 <= i < last => RotateAction(pi, actions[..last][i]));
      match Play(adj, s, actions[..last])
      case Rejected(_) =>
      case Ok(t) => RulesCommute(adj, adj', pi, t, actions[last]);
    }
  }

  // ----- scoring -----

  lemma ReachesImage(adj: Adjacency, adj': Adjacency, pi: seq<nat>, b: Board, p: nat, color: Stone)
    requires WellFormed(adj) && WellFormed(adj') && Isomorphism(adj, adj', pi) && |b| == |adj| && p < |b| && b[p] == Empty
    ensures Reaches(adj', Permuted(pi, b), pi[p], color) <==> Reaches(adj, b, p, color)
  {
    hide WellFormed, Isomorphism, IsPermutation, BorderStep;
    IsomorphismPermutes(adj, adj', pi);
    if Reaches(adj, b, p, color) {
      var q: nat, r: nat :| BorderStep(adj, b, p, color, q, r);
      BorderForward(adj, adj', pi, b, p, color, q, r);
    }
    if Reaches(adj', Permuted(pi, b), pi[p], color) {
      var q': nat, r': nat :| BorderStep(adj', Permuted(pi, b), pi[p], color, q', r');
      BorderBack(adj, adj', pi, b, p, color, q', r');
    }
  }

  lemma BorderForward(adj: Adjacency, adj': Adjacency, pi: seq<nat>, b: Board, p: nat, color: Stone, q: nat, r: nat)
    requires Isomorphism(adj, adj', pi) && |b| == |adj| && p < |b| && BorderStep(adj, b, p, color, q, r)
    ensures q < |pi| && r < |pi| && BorderStep(adj', Permuted(pi, b), pi[p], color, pi[q], pi[r])
  {
    hide Linked, Image;
    StonesImage(pi, b, Empty);
    LinkedImage(adj, adj', pi, Stones(b, Empty), p, q);
  }

  lemma BorderBack(adj: Adjacency, adj': Adjacency, pi: seq<nat>, b: Board, p: nat, color: Stone, q': nat, r': nat)
    requires WellFormed(adj) && WellFormed(adj') && Isomorphism(adj, adj', pi) && |b| == |adj| && p < |b| && b[p] == Empty
    requires BorderStep(adj', Permuted(pi, b), pi[p], color, q', r')
    ensures Reaches(adj, b, p, color)
  {
    hide WellFormed, IsPermutation, Linked;
    var region := Stones(b, Empty);
    StonesImage(pi, b, Empty);
    ComponentImage(adj, adj', pi, region, p);
    assert q' in Image(pi, Component(adj, region, p));
    var q :| q in Component(adj, region, p) && q < |pi| && pi[q] == q';
    var r := Source(pi, r');
    assert BorderStep(adj, b, p, color, q, r);
  }

  lemma OwnerImage(adj: Adjacency, adj': Adjacency, pi: seq<nat>, b: Board, p: nat)
    requires WellFormed(adj) && WellFormed(adj') && Isomorphism(adj, adj', pi) && |b| == |adj| && p < |b|
    ensures OwnerOf(adj', Permuted(pi, b), pi[p]) == OwnerOf(adj, b, p)
  {
    if b[p] == Empty {
      ReachesImage(adj, adj', pi, b, p, Black);
      ReachesImage(adj, adj', pi, b, p, White);
    }
  }

  lemma OwnedImage(adj: Adjacency, adj': Adjacency, pi: seq<nat>, b: Board, within: set<nat>, o: Ownership)
    requires WellFormed(adj) && WellFormed(adj') && Isomorphism(adj, adj', pi) && |b| == |adj|
    requires forall p :: p in within ==> p < |b|
    ensures |Owned(adj', Permuted(pi, b), Image(pi, within), o)| == |Owned(adj, b, within, o)|
  {
    var from, to := Owned(adj, b, within, o), Owned(adj', Permuted(pi, b), Image(pi, within), o);
    forall q | q in to ensures q in Image(pi, from) {
      var p :| p in within && p < |pi| && pi[p] == q;
      OwnerImage(adj, adj', pi, b, p);
    }
    forall q | q in Image(pi, from) ensures q in to {
      var p :| p in from && p < |pi| && pi[p] == q;
      OwnerImage(adj, adj', pi, b, p);
    }
    assert to == Image(pi, from);
    ImageCount(pi, from);
  }

  lemma ImageOfAll(pi: seq<nat>)
    requires IsPermutation(pi)
    ensures Image(pi, UpTo(|pi|)) == UpTo(|pi|)
  {
    ImageCount(pi, UpTo(|pi|));
    EqualCount(Image(pi, UpTo(|pi|)), UpTo(|pi|));
  }

  lemma OwnershipImage(adj: Adjacency, adj': Adjacency, pi: seq<nat>, b: Board, komi: real)
    requires WellFormed(adj) && WellFormed(adj') && Isomorphism(adj, adj', pi) && |b| == |adj|
    ensures Score(adj', Permuted(pi, b), komi).ownership == Permuted(pi, Score(adj, b, komi).ownership)
  {
    var o, o' := Score(adj, b, komi).ownership, Score(adj', Permuted(pi, b), komi).ownership;
    forall i | 0 <= i < |pi| ensures o'[pi[i]] == o[i] {
      OwnerImage(adj, adj', pi, b, i);
    }
    PermutedUnique(pi, o, o');
  }

  lemma StoneCountImage(pi: seq<nat>, b: Board, color: Stone)
    requires IsPermutation(pi) && |b| == |pi|
    ensures |Stones(Permuted(pi, b), color)| == |Stones(b, color)|
  {
    StonesImage(pi, b, color);
    ImageCount(pi, Stones(b, color));
  }

  lemma AreaImage(adj: Adjacency, adj': Adjacency, pi: seq<nat>, b: Board, o: Ownership)
    requires WellFormed(adj) && WellFormed(adj') && Isomorphism(adj, adj', pi) && |b| == |adj|
    ensures |Owned(adj', Permuted(pi, b), UpTo(|b|), o)| == |Owned(adj, b, UpTo(|b|), o)|
    ensures |Owned(adj', Permuted(pi, b), Stones(Permuted(pi, b), Empty), o)| == |Owned(adj, b, Stones(b, Empty), o)|
  {
    ImageOfAll(pi);
    StonesImage(pi, b, Empty);
    OwnedImage(adj, adj', pi, b, UpTo(|b|), o);
    OwnedImage(adj, adj', pi, b, Stones(b, Empty), o);
  }

  /** Ownership is relabelled; areas, territories, neutral points and the margin do not change. */
  lemma ScoreCommutes(adj: Adjacency, adj': Adjacency, pi: seq<nat>, b: Board, komi: real)
    requires WellFormed(adj) && WellFormed(adj') && Isomorphism(adj, adj', pi) && |b| == |adj|
    ensures Score(adj', Permuted(pi, b), komi) ==
            Score(adj, b, komi).(ownership := Permuted(pi, Score(adj, b, komi).ownership))
  {
    StoneCountImage(pi, b, Black);
    StoneCountImage(pi, b, White);
    AreaImage(adj, adj', pi, b, OwnedBlack);
    AreaImage(adj, adj', pi, b, OwnedWhite);
    AreaImage(adj, adj', pi, b, Neutral);
    OwnershipImage(adj, adj', pi, b, komi);
  }
}
