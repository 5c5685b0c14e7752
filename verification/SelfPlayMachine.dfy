/** What one game is to the self-play engine: a deterministic machine that asks for evaluations, and what playing it alone gives. */
module SelfPlayMachine {
  import opened Options

  type Id(==, !new)
  type Game(==, !new)
  type Row(==, !new)
  type Evaluation(==, !new)
  type Record(==, !new)

  /** What advancing a game gives: the suspended game and the row it wants evaluated, or its finished record. */
  datatype Outcome = InferenceNeed(game: Game, payload: Row) | GameFinished(record: Record)

  /** The game factory, the two cooperative calls, and the network applied to one row. */
  datatype Machine = Machine(
    start: Id -> Game,
    advance: Game -> Outcome,
    resume: (Game, Evaluation) -> Game,
    infer: Row -> Evaluation)

  /** The game of an id after k evaluations when it is played alone, if it lasts that long. */
  function SoloAt(m: Machine, id: Id, k: nat): Option<Game> {
    if k == 0 then Some(m.start(id))
    else
      match SoloAt(m, id, k - 1)
      case None => None
      case Some(game) =>
        match m.advance(game)
        case GameFinished(_) => None
        case InferenceNeed(suspended, payload) => Some(m.resume(suspended, m.infer(payload)))
  }

  /** A game as the solo run knows it, about to be advanced. */
  ghost predicate OnSolo(m: Machine, id: Id, game: Game) {
    exists k :: SoloAt(m, id, k) == Some(game)
  }

  /** A game as the solo run knows it, waiting for the evaluation of this row. */
  ghost predicate Suspended(m: Machine, id: Id, game: Game, payload: Row) {
    exists ready :: OnSolo(m, id, ready) && m.advance(ready) == InferenceNeed(game, payload)
  }

  /** The record that playing the game alone ends with. */
  ghost predicate IsSoloRecord(m: Machine, id: Id, record: Record) {
    exists ready :: OnSolo(m, id, ready) && m.advance(ready) == GameFinished(record)
  }

  lemma StartIsSolo(m: Machine, id: Id)
    ensures OnSolo(m, id, m.start(id))
  {
    assert SoloAt(m, id, 0) == Some(m.start(id));
  }

  lemma ResumeIsSolo(m: Machine, id: Id, game: Game, payload: Row)
    requires Suspended(m, id, game, payload)
    ensures OnSolo(m, id, m.resume(game, m.infer(payload)))
  {
    var ready :| OnSolo(m, id, ready) && m.advance(ready) == InferenceNeed(game, payload);
    var k: nat :| SoloAt(m, id, k) == Some(ready);
    assert SoloAt(m, id, k + 1) == Some(m.resume(game, m.infer(payload)));
  }

  /** A solo run that has ended stays ended. */
  lemma {:induction false} SoloOver(m: Machine, id: Id, j: nat, k: nat)
    requires j <= k && SoloAt(m, id, j) == None
    ensures SoloAt(m, id, k) == None
    decreases k - j
  {
    if j < k {
      SoloOver(m, id, j, k - 1);
    }
  }

  lemma SoloEndsAt(m: Machine, id: Id, j: nat, k: nat, game: Game, record: Record)
    requires SoloAt(m, id, j) == Some(game) && m.advance(game) == GameFinished(record) && SoloAt(m, id, k).Some?
    ensures k <= j
  {
    assert SoloAt(m, id, j + 1) == None;
    if k > j {
      SoloOver(m, id, j + 1, k);
    }
  }

  /** A game played alone has at most one record. */
  lemma SoloRecordUnique(m: Machine, id: Id, r: Record, r': Record)
    requires IsSoloRecord(m, id, r) && IsSoloRecord(m, id, r')
    ensures r == r'
  {
    var g :| OnSolo(m, id, g) && m.advance(g) == GameFinished(r);
    var g' :| OnSolo(m, id, g') && m.advance(g') == GameFinished(r');
    var j: nat :| SoloAt(m, id, j) == Some(g);
    var k: nat :| SoloAt(m, id, k) == Some(g');
    SoloEndsAt(m, id, j, k, g, r);
    SoloEndsAt(m, id, k, j, g', r');
  }
}
