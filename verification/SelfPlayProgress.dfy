/** Progress of the engine: some step is always possible, and every step does a bounded amount of work. */
module SelfPlayProgress {
  import opened Options
  import opened SelfPlayMachine
  import opened SelfPlayProtocol
  import opened SelfPlayWorker
  import opened SelfPlayBroker
  import opened SelfPlayEngine

  // ----- no deadlock -----

  /** A worker that holds a game can step, unless it waits for an answer or has something to report. */
  lemma WorkerCanStep(c: Config, m: Machine, w: nat, v: Worker) returns (step: Step)
    requires Count(c) > 0 && WorkerOk(c, m, w, v) && Held(v) != multiset{} && TaskStop !in v.tasks && !v.stopSeen
    requires v.reports == [] && v.outbox == [] && !InFlight(v)
    ensures WorkerStep(step) && step.w == w && WorkerEnabled(v, step)
  {
    hide OnSolo, Suspended, Share, Slots, Count, Held;
    match v.phase {
      case Filling =>
        SomethingToDo(v);
        step := if Occupied(v.seats) > 0 then Begin(w) else Take(w);
      case Advancing(todo, _) =>
        step := if todo != [] then Advance(w) else End(w);
      case Writing(needs, written) =>
        step := if written < |needs| then Write(w) else Submit(w);
      case Waiting(_) =>
        step := Accept(w);
      case Reading(needs, evaluations) =>
        step := if |evaluations| < |needs| then Read(w) else Free(w);
      case Resuming(_, _, _) =>
        step := if CanResume(v) then Resume(w) else Next(w);
    }
  }

  lemma SomethingToDo(v: Worker)
    requires Held(v) != multiset{} && v.reports == []
    ensures Occupied(v.seats) > 0 || v.tasks != []
  {
    SeatIdsCount(v.seats);
  }

  /** The broker can step whenever it holds a request. */
  lemma BrokerCanStep(c: Config, m: Machine, s: State) returns (step: Step)
    requires Inv(c, m, s) && !s.broker.fatal && Flight(s.broker) != [] && !Broken(s)
    ensures Enabled(c, s, step)
  {
    hide Inv, Rows, IsBatch, WorkerEnabled, Broken, WorkerOk, BrokerOk, Tracked, Accepted, Oversized;
    InvParts(c, m, s);
    match s.broker.dispatch {
      case Idle =>
        FirstFits(c, s.broker.pending);
        var k := BatchExists(c, s.broker.pending, 1);
        step := TakeBatch(k);
      case Gathering(batch, staging) =>
        step := if |staging| < Rows(batch) then Gather else Infer;
      case Scattering(batch, _, offset) =>
        step := if offset < Rows(batch) then Scatter else Finish;
      case Responding(batch) =>
        step := if batch != [] then Respond else Rest;
    }
  }

  lemma {:induction false} BatchExists(c: Config, pending: seq<Request>, k: nat) returns (l: nat)
    requires Admitted(c, pending) && 0 < k <= |pending| && Rows(pending[..k]) <= c.batchCap
    ensures IsBatch(pending, c.batchCap, l)
    decreases |pending| - k
  {
    if k == |pending| || Rows(pending[..k + 1]) > c.batchCap {
      l := k;
    } else {
      l := BatchExists(c, pending, k + 1);
    }
  }

  lemma FirstFits(c: Config, pending: seq<Request>)
    requires Admitted(c, pending) && pending != []
    ensures Rows(pending[..1]) <= c.batchCap
  {
    RowsStep(pending, 0);
    assert pending[0] in pending;
  }

  lemma NotBroken(c: Config, m: Machine, s: State)
    requires Inv(c, m, s) && !s.broker.fatal
    ensures !Broken(s)
  {
    hide BrokerOk, Accounted, PhaseOk, Held, Share, Slots, Count;
    forall w | 0 <= w < |s.workers| ensures !s.workers[w].failed {
      assert WorkerOk(c, m, w, s.workers[w]);
    }
  }

  /** Unfinished games are held by somebody. */
  lemma GamesAreHeld(c: Config, m: Machine, s: State) returns (w: nat)
    requires Inv(c, m, s) && |s.completed| < |c.ids|
    ensures w < |s.workers| && Held(s.workers[w]) != multiset{}
  {
    hide BrokerOk, PhaseOk, Held, HeldAll, Share, Count, Tracked;
    if s.pending != [] {
      w := 0;
      assert WorkerOk(c, m, 0, s.workers[0]);
      FirstShare(c);
    } else {
      assert |multiset(s.completed.Keys)| == |s.completed.Keys| == |s.completed|;
      SizesAdd(multiset(s.pending), HeldAll(s.workers), multiset(s.completed.Keys));
      w := SomebodyHolds(s.workers);
    }
  }

  lemma SizesAdd(a: multiset<Id>, b: multiset<Id>, c: multiset<Id>)
    ensures |a + b + c| == |a| + |b| + |c|
  {
  }

  lemma FirstShare(c: Config)
    requires Accepted(c) && Count(c) > 0
    ensures Share(c, 0) > 0
  {
    hide Count, Target;
    TargetFits(c);
    DivMod(Target(c), Count(c));
  }

  /** While games are missing and the broker is not fatal, some step is possible: the engine never deadlocks. */
  lemma NoDeadlock(c: Config, m: Machine, s: State) returns (step: Step)
    requires Inv(c, m, s) && !s.broker.fatal && |s.completed| < |c.ids|
    ensures Enabled(c, s, step)
  {
    hide Held, HeldAll, Flight, DispatchOk, FlightOk, Share, Count, WorkerOk, WorkerEnabled, Rows, IsBatch, IsSoloRecord, Accounted, FullyLoaded, Broken, InFlight;
    NotBroken(c, m, s);
    var w := GamesAreHeld(c, m, s);
    var v := s.workers[w];
    if v.reports != [] {
      step := Handle(w);
    } else if v.outbox != [] {
      step := Ingress(w);
    } else if InFlight(v) {
      assert AnswerDue(s.broker, w);
      step := BrokerCanStep(c, m, s);
    } else {
      assert TaskStop !in v.tasks && !v.stopSeen;
      step := WorkerCanStep(c, m, w, v);
    }
  }

  // ----- how long a game lasts -----

  /** The game ends after exactly r more evaluations. */
  ghost predicate EndsIn(m: Machine, game: Game, r: nat) {
    match m.advance(game)
    case GameFinished(_) => r == 0
    case InferenceNeed(suspended, payload) => r > 0 && EndsIn(m, m.resume(suspended, m.infer(payload)), r - 1)
  }

  ghost predicate Ends(m: Machine, game: Game) {
    exists r: nat :: EndsIn(m, game, r)
  }

  lemma {:induction false} EndsOnce(m: Machine, game: Game, r: nat, r': nat)
    requires EndsIn(m, game, r) && EndsIn(m, game, r')
    ensures r == r'
  {
    match m.advance(game)
    case GameFinished(_) =>
    case InferenceNeed(suspended, payload) => EndsOnce(m, m.resume(suspended, m.infer(payload)), r - 1, r' - 1);
  }

  ghost function RoundsLeft(m: Machine, game: Game): nat {
    if Ends(m, game) then (var r: nat :| EndsIn(m, game, r); r) else 0
  }

  lemma RoundsLeftStep(m: Machine, game: Game)
    requires Ends(m, game)
    ensures match m.advance(game)
      case GameFinished(_) => true
      case InferenceNeed(suspended, payload) =>
        var next := m.resume(suspended, m.infer(payload));
        Ends(m, next) && RoundsLeft(m, game) == RoundsLeft(m, next) + 1
  {
    match m.advance(game)
    case GameFinished(_) =>
    case InferenceNeed(suspended, payload) =>
      var next := m.resume(suspended, m.infer(payload));
      var r: nat := RoundsLeft(m, game);
      assert EndsIn(m, game, r);
      assert EndsIn(m, next, r - 1);
      EndsOnce(m, next, r - 1, RoundsLeft(m, next));
  }

  lemma {:induction false} SoloEnds(m: Machine, id: Id, k: nat)
    requires Ends(m, m.start(id)) && SoloAt(m, id, k).Some?
    ensures Ends(m, SoloAt(m, id, k).value)
  {
    if k > 0 {
      SoloEnds(m, id, k - 1);
      RoundsLeftStep(m, SoloAt(m, id, k - 1).value);
    }
  }

  lemma OnSoloEnds(m: Machine, id: Id, game: Game)
    requires Ends(m, m.start(id)) && OnSolo(m, id, game)
    ensures Ends(m, game)
  {
    var k: nat :| SoloAt(m, id, k) == Some(game);
    SoloEnds(m, id, k);
  }

  // ----- the work left -----

  /** Work per remaining evaluation; it covers every step one round of a worker and one batch can take. */
  const ROUND := 20

  ghost function GameWork(m: Machine, game: Game): nat { ROUND * (RoundsLeft(m, game) + 1) }

  /** The row a seat waits for, if any. */
  function NeedOf(hanging: seq<Need>, slot: nat): Option<Row> {
    if hanging == [] then None
    else if hanging[|hanging| - 1].slot == slot then Some(hanging[|hanging| - 1].row)
    else NeedOf(hanging[..|hanging| - 1], slot)
  }

  ghost function SeatWork(m: Machine, seat: Option<Seat>, need: Option<Row>): nat {
    match seat
    case None => 0
    case Some(s) =>
      match need
      case None => GameWork(m, s.game)
      case Some(row) => GameWork(m, m.resume(s.game, m.infer(row)))
  }

  ghost function SeatsWork(m: Machine, seats: seq<Option<Seat>>, hanging: seq<Need>): nat {
    if seats == [] then 0
    else SeatsWork(m, seats[..|seats| - 1], hanging) + SeatWork(m, seats[|seats| - 1], NeedOf(hanging, |seats| - 1))
  }

  /** Games advanced and not yet resumed. */
  function HangingIn(p: Phase): seq<Need> {
    match p
    case Filling => []
    case Advancing(_, needs) => needs
    case Writing(needs, _) => needs
    case Waiting(needs) => needs
    case Reading(needs, _) => needs
    case Resuming(needs, _, resumed) => if resumed <= |needs| then needs[resumed..] else []
    case Stopped => []
  }

  ghost function TaskWork(m: Machine, task: Task): nat {
    match task case TaskStop => 1 case Play(id) => GameWork(m, m.start(id)) + 1
  }

  ghost function TasksWork(m: Machine, tasks: seq<Task>): nat {
    if tasks == [] then 0 else TasksWork(m, tasks[..|tasks| - 1]) + TaskWork(m, tasks[|tasks| - 1])
  }

  ghost function PendingWork(m: Machine, ids: seq<Id>): nat {
    if ids == [] then 0 else PendingWork(m, ids[..|ids| - 1]) + GameWork(m, m.start(ids[|ids| - 1])) + 2
  }

  /** Steps left in the current round, up to the next fill. */
  function PhaseWork(v: Worker): int {
    match v.phase
    case Filling => 2
    case Advancing(todo, needs) => 1 + 5 * |needs| + if todo == [] then 12 else 0
    case Writing(needs, written) => 5 * |needs| + 12 - written
    case Waiting(needs) => 2 * |needs| + 4 + |v.responses| + if v.outbox == [] then 0 else 2 * |needs| + 7
    case Reading(needs, evaluations) => 2 * |needs| + 4 - |evaluations|
    case Resuming(needs, evaluations, resumed) => |needs| + 3 - resumed
    case Stopped => 0
  }

  ghost function WorkerWork(m: Machine, v: Worker): int {
    TasksWork(m, v.tasks) + SeatsWork(m, v.seats, HangingIn(v.phase)) + |v.reports| + PhaseWork(v)
  }

  ghost function WorkersWork(m: Machine, workers: seq<Worker>): int {
    if workers == [] then 0 else WorkersWork(m, workers[..|workers| - 1]) + WorkerWork(m, workers[|workers| - 1])
  }

  function DispatchWork(d: Dispatch): int {
    match d
    case Idle => 0
    case Gathering(batch, staging) => 2 * Rows(batch) - |staging| + 2 * |batch| + 3
    case Scattering(batch, _, offset) => Rows(batch) - offset + 2 * |batch| + 2
    case Responding(batch) => 2 * |batch| + 1
  }

  function BrokerWork(b: Broker): int {
    2 * Rows(b.pending) + 6 * |b.pending| + DispatchWork(b.dispatch)
  }

  ghost function Work(m: Machine, s: State): int {
    WorkersWork(m, s.workers) + BrokerWork(s.broker) + PendingWork(m, s.pending) + if s.stopsSent then 0 else |s.workers|
  }

  // ----- sums -----

  lemma {:induction false} SeatsWorkChange(m: Machine, seats: seq<Option<Seat>>, seats': seq<Option<Seat>>, h: seq<Need>, h': seq<Need>, k: nat)
    requires |seats'| == |seats| && k < |seats|
    requires forall i: nat :: i < |seats| && i != k ==> seats'[i] == seats[i] && (seats[i].Some? ==> NeedOf(h', i) == NeedOf(h, i))
    ensures SeatsWork(m, seats', h') + SeatWork(m, seats[k], NeedOf(h, k)) == SeatsWork(m, seats, h) + SeatWork(m, seats'[k], NeedOf(h', k))
  {
    hide NeedOf, SeatWork;
    var last := |seats| - 1;
    if k < last {
      SeatsWorkChange(m, seats[..last], seats'[..last], h, h', k);
      SeatWorkSame(m, seats[last], NeedOf(h, last), NeedOf(h', last));
    } else {
      SeatsWorkSame(m, seats[..last], h, h');
      assert seats'[..last] == seats[..last];
    }
  }

  lemma SeatWorkSame(m: Machine, seat: Option<Seat>, need: Option<Row>, need': Option<Row>)
    requires seat.Some? ==> need' == need
    ensures SeatWork(m, seat, need') == SeatWork(m, seat, need)
  {
  }

  lemma {:induction false} SeatsWorkSame(m: Machine, seats: seq<Option<Seat>>, h: seq<Need>, h': seq<Need>)
    requires forall i: nat :: i < |seats| && seats[i].Some? ==> NeedOf(h', i) == NeedOf(h, i)
    ensures SeatsWork(m, seats, h') == SeatsWork(m, seats, h)
  {
    hide NeedOf, SeatWork;
    if seats != [] {
      var last := |seats| - 1;
      SeatsWorkSame(m, seats[..last], h, h');
      SeatWorkSame(m, seats[last], NeedOf(h, last), NeedOf(h', last));
    }
  }

  lemma {:induction false} TasksWorkTail(m: Machine, tasks: seq<Task>)
    requires tasks != []
    ensures TasksWork(m, tasks) == TaskWork(m, tasks[0]) + TasksWork(m, tasks[1..])
  {
    hide TaskWork;
    var last := |tasks| - 1;
    if last > 0 {
      TasksWorkTail(m, tasks[..last]);
      assert tasks[1..][..last - 1] == tasks[..last][1..];
    }
  }

  lemma TasksWorkPush(m: Machine, tasks: seq<Task>, task: Task)
    ensures TasksWork(m, tasks + [task]) == TasksWork(m, tasks) + TaskWork(m, task)
  {
    assert (tasks + [task])[..|tasks|] == tasks;
  }

  lemma {:induction false} PendingWorkTail(m: Machine, ids: seq<Id>)
    requires ids != []
    ensures PendingWork(m, ids) == GameWork(m, m.start(ids[0])) + 2 + PendingWork(m, ids[1..])
  {
    hide GameWork;
    var last := |ids| - 1;
    if last > 0 {
      PendingWorkTail(m, ids[..last]);
      assert ids[1..][..last - 1] == ids[..last][1..];
    }
  }

  lemma {:induction false} WorkersWorkUpdate(m: Machine, workers: seq<Worker>, w: nat, v: Worker)
    requires w < |workers|
    ensures WorkersWork(m, workers[w := v]) == WorkersWork(m, workers) - WorkerWork(m, workers[w]) + WorkerWork(m, v)
  {
    hide WorkerWork;
    var last := |workers| - 1;
    if w < last {
      assert workers[w := v][..last] == workers[..last][w := v];
      WorkersWorkUpdate(m, workers[..last], w, v);
    } else {
      assert workers[w := v][..last] == workers[..last];
    }
  }

  lemma {:induction false} NeedOfIs(needs: seq<Need>, i: nat)
    requires NeedsOrdered(needs) && i < |needs|
    ensures NeedOf(needs, needs[i].slot) == Some(needs[i].row)
  {
    var last := |needs| - 1;
    if i < last {
      assert needs[i].slot < needs[last].slot;
      NeedOfIs(needs[..last], i);
    }
  }

  lemma {:induction false} NeedOfNone(needs: seq<Need>, slot: nat)
    requires !Needed(needs, slot)
    ensures NeedOf(needs, slot) == None
  {
    if needs != [] {
      var last := |needs| - 1;
      assert needs[last].slot != slot;
      forall i | 0 <= i < last ensures needs[..last][i].slot != slot {
        assert needs[i].slot != slot;
      }
      NeedOfNone(needs[..last], slot);
    }
  }

  lemma {:induction false} NeedOfTail(needs: seq<Need>, slot: nat)
    requires needs != [] && needs[0].slot != slot
    ensures NeedOf(needs[1..], slot) == NeedOf(needs, slot)
  {
    var last := |needs| - 1;
    if last > 0 {
      assert needs[1..][..last - 1] == needs[..last][1..];
      if needs[last].slot != slot {
        NeedOfTail(needs[..last], slot);
      }
    }
  }

  // ----- every worker step uses up work -----

  lemma TakeWorks(c: Config, m: Machine, w: nat, v: Worker)
    requires Count(c) > 0 && WorkerOk(c, m, w, v) && CanTake(v)
    ensures WorkerWork(m, TakeTask(m, v)) < WorkerWork(m, v)
  {
    hide OnSolo, Share, Slots, Count, SeatIds, TaskIds, ReportIds, Occupied, GameWork, SeatsWork, TasksWork;
    TasksWorkTail(m, v.tasks);
    match v.tasks[0]
    case TaskStop =>
    case Play(id) =>
      TaskIdsTail(v.tasks);
      SeatIdsCount(v.seats);
      var k := FreeSlot(v.seats);
      SeatsWorkChange(m, v.seats, v.seats[k := Some(Seat(id, m.start(id)))], [], [], k);
  }

  lemma AdvanceWorks(c: Config, m: Machine, w: nat, v: Worker)
    requires Count(c) > 0 && WorkerOk(c, m, w, v) && CanAdvance(v)
    requires forall id :: id in Held(v) ==> Ends(m, m.start(id))
    ensures WorkerWork(m, AdvanceOne(m, v)) < WorkerWork(m, v)
  {
    hide OnSolo, Share, Slots, Count, SeatIds, TaskIds, ReportIds, Ends, SeatsWork, TasksWork, RoundsLeft, NeedOf, Suspended;
    var todo, needs := v.phase.todo, v.phase.needs;
    var slot := todo[0];
    assert Ready(m, v.seats, slot);
    var seat := v.seats[slot].value;
    SeatedIsHeld(v, slot);
    OnSoloEnds(m, seat.id, seat.game);
    RoundsLeftStep(m, seat.game);
    NotNeeded(needs, todo, slot);
    NeedOfNone(needs, slot);
    match m.advance(seat.game)
    case InferenceNeed(game, payload) =>
      var needs' := needs + [Need(slot, payload)];
      forall i: nat | i != slot ensures NeedOf(needs', i) == NeedOf(needs, i) {
        NeedOfPush(needs, Need(slot, payload), i);
      }
      NeedOfPush(needs, Need(slot, payload), slot);
      SeatsWorkChange(m, v.seats, v.seats[slot := Some(Seat(seat.id, game))], needs, needs', slot);
    case GameFinished(record) =>
      SeatsWorkChange(m, v.seats, v.seats[slot := None], needs, needs, slot);
  }

  lemma NotNeeded(needs: seq<Need>, todo: seq<nat>, slot: nat)
    requires todo != [] && todo[0] == slot && forall i, j :: 0 <= i < |needs| && 0 <= j < |todo| ==> needs[i].slot < todo[j]
    ensures !Needed(needs, slot)
  {
  }

  lemma NeedOfPush(needs: seq<Need>, need: Need, slot: nat)
    ensures NeedOf(needs + [need], slot) == if need.slot == slot then Some(need.row) else NeedOf(needs, slot)
  {
    assert (needs + [need])[..|needs|] == needs;
  }

  lemma {:induction false} SeatIdIn(seats: seq<Option<Seat>>, k: nat)
    requires k < |seats| && seats[k].Some?
    ensures seats[k].value.id in SeatIds(seats)
  {
    if k < |seats| - 1 {
      SeatIdIn(seats[..|seats| - 1], k);
    }
  }

  lemma SeatedIsHeld(v: Worker, k: nat)
    requires k < |v.seats| && v.seats[k].Some?
    ensures v.seats[k].value.id in Held(v)
  {
    hide TaskIds, ReportIds, SeatIds;
    SeatIdIn(v.seats, k);
  }

  lemma BeginWorks(m: Machine, v: Worker)
    requires CanBegin(v)
    ensures WorkerWork(m, BeginRound(v)) < WorkerWork(m, v)
  {
    hide TasksWork, SeatsWork, ActiveSlots;
    ActiveSlotsAre(v.seats);
  }

  lemma EndWorks(c: Config, m: Machine, w: nat, v: Worker)
    requires Count(c) > 0 && WorkerOk(c, m, w, v) && AllAdvanced(v)
    ensures WorkerWork(m, EndRound(v)) < WorkerWork(m, v)
  {
    hide TasksWork, SeatsWork, OnSolo, Suspended, Share, Slots, Count, Held;
    var needs := v.phase.needs;
    if needs != [] {
      forall i | 0 <= i < |needs| ensures SlotsOf(needs)[i] < |v.inputs| {
        assert Hanging(m, v.seats, needs[i]);
      }
      assert MayLease(v, SlotsOf(needs));
    }
  }

  lemma ResumeWorks(c: Config, m: Machine, w: nat, v: Worker)
    requires Count(c) > 0 && WorkerOk(c, m, w, v) && CanResume(v)
    ensures WorkerWork(m, ResumeOne(m, v)) < WorkerWork(m, v)
  {
    hide TasksWork, SeatsWork, OnSolo, Suspended, Share, Slots, Count, Held, NeedOf, GameWork;
    var k, needs := v.phase.resumed, v.phase.needs;
    assert Hanging(m, v.seats, needs[k]);
    var slot := needs[k].slot;
    var seat := v.seats[slot].value;
    var h, h' := needs[k..], needs[k + 1..];
    assert h[0] == needs[k] && h[1..] == h';
    NeedOfIs(h, 0);
    assert !Needed(h', slot) by { LaterNeeds(needs, k); }
    NeedOfNone(h', slot);
    forall i: nat | i != slot ensures NeedOf(h', i) == NeedOf(h, i) {
      NeedOfTail(h, i);
    }
    SeatsWorkChange(m, v.seats, v.seats[slot := Some(Seat(seat.id, m.resume(seat.game, v.phase.evaluations[k])))], h, h', slot);
  }

  lemma LaterNeeds(needs: seq<Need>, k: nat)
    requires NeedsOrdered(needs) && k < |needs|
    ensures !Needed(needs[k + 1..], needs[k].slot)
  {
    var later := needs[k + 1..];
    forall i | 0 <= i < |later| ensures later[i].slot != needs[k].slot {
      assert later[i] == needs[k + 1 + i];
    }
  }

  lemma NextWorks(c: Config, m: Machine, w: nat, v: Worker)
    requires Count(c) > 0 && WorkerOk(c, m, w, v) && AllResumed(v)
    ensures WorkerWork(m, NextRound(v)) < WorkerWork(m, v)
  {
    hide TasksWork, SeatsWork, OnSolo, Suspended, Share, Slots, Count, Held;
    assert HangingIn(v.phase) == [];
  }

  lemma StopWorks(m: Machine, v: Worker)
    requires CanStop(v)
    ensures WorkerWork(m, Stop(v)) < WorkerWork(m, v)
  {
    hide TasksWork, SeatsWork;
  }

  lemma WriteWorks(c: Config, m: Machine, w: nat, v: Worker)
    requires Count(c) > 0 && WorkerOk(c, m, w, v) && CanWrite(v)
    ensures WorkerWork(m, WriteOne(v)) < WorkerWork(m, v)
  {
    hide TasksWork, SeatsWork, OnSolo, Suspended, Share, Slots, Count, Held;
    assert Hanging(m, v.seats, v.phase.needs[v.phase.written]);
  }

  lemma SubmitWorks(c: Config, m: Machine, w: nat, v: Worker)
    requires Count(c) > 0 && WorkerOk(c, m, w, v) && CanSend(v)
    ensures WorkerWork(m, Send(w, v)) < WorkerWork(m, v)
  {
    hide TasksWork, SeatsWork, OnSolo, Suspended, Share, Slots, Count, Held, SlotsOf, AllHanging, Leased, InputsWritten;
  }

  lemma AcceptWorks(c: Config, m: Machine, w: nat, v: Worker)
    requires Count(c) > 0 && WorkerOk(c, m, w, v) && CanReceive(v)
    ensures WorkerWork(m, Receive(v)) < WorkerWork(m, v)
  {
    hide TasksWork, SeatsWork, OnSolo, Suspended, Share, Slots, Count, Held, SlotsOf, AllHanging, Leased, InputsWritten, OutputsReady;
  }

  lemma ReadWorks(c: Config, m: Machine, w: nat, v: Worker)
    requires Count(c) > 0 && WorkerOk(c, m, w, v) && CanRead(v)
    ensures WorkerWork(m, ReadOne(v)) < WorkerWork(m, v)
  {
    hide TasksWork, SeatsWork, OnSolo, Suspended, Share, Slots, Count, Held, Leased;
    assert Hanging(m, v.seats, v.phase.needs[|v.phase.evaluations|]);
  }

  lemma FreeWorks(c: Config, m: Machine, w: nat, v: Worker)
    requires Count(c) > 0 && WorkerOk(c, m, w, v) && CanRelease(v)
    ensures WorkerWork(m, Release(v)) < WorkerWork(m, v)
  {
    hide TasksWork, SeatsWork, OnSolo, Suspended, Share, Slots, Count, Held, Leased, AllHanging, OutputsReady;
    assert v.phase.needs[0..] == v.phase.needs;
  }

  /** Steps that only move the worker through its phases. */
  lemma QuietStepWorks(c: Config, m: Machine, w: nat, v: Worker, step: Step)
    requires Count(c) > 0 && WorkerOk(c, m, w, v) && WorkerStep(step) && step.w == w && WorkerEnabled(v, step)
    requires step.StopWorker? || step.Write? || step.Submit? || step.Accept? || step.Read? || step.Free?
    ensures WorkerWork(m, WorkerNext(m, v, step)) < WorkerWork(m, v)
  {
    hide WorkerOk, WorkerWork, CanStop, CanWrite, CanSend, CanReceive, CanRead, CanRelease;
    match step {
      case StopWorker(_) => StopWorks(m, v);
      case Write(_) => WriteWorks(c, m, w, v);
      case Submit(_) => SubmitWorks(c, m, w, v);
      case Accept(_) => AcceptWorks(c, m, w, v);
      case Read(_) => ReadWorks(c, m, w, v);
      case Free(_) => FreeWorks(c, m, w, v);
    }
  }

  lemma WorkerStepWorks(c: Config, m: Machine, w: nat, v: Worker, step: Step)
    requires Count(c) > 0 && WorkerOk(c, m, w, v) && WorkerStep(step) && step.w == w && WorkerEnabled(v, step)
    requires forall id :: id in Held(v) ==> Ends(m, m.start(id))
    ensures WorkerWork(m, WorkerNext(m, v, step)) < WorkerWork(m, v)
  {
    hide WorkerOk, WorkerWork, CanTake, CanBegin, CanStop, CanAdvance, AllAdvanced, CanWrite, CanSend, CanReceive, CanRead, CanRelease, CanResume, AllResumed, Held, Ends;
    match step {
      case Take(_) => TakeWorks(c, m, w, v);
      case Begin(_) => BeginWorks(m, v);
      case Advance(_) => AdvanceWorks(c, m, w, v);
      case End(_) => EndWorks(c, m, w, v);
      case Resume(_) => ResumeWorks(c, m, w, v);
      case Next(_) => NextWorks(c, m, w, v);
      case _ => QuietStepWorks(c, m, w, v, step);
    }
  }

  // ----- broker and parent steps use up work -----

  lemma IngressWorks(c: Config, m: Machine, s: State, w: nat)
    requires Inv(c, m, s) && w < |s.workers| && s.workers[w].outbox != []
    ensures Work(m, DoIngress(c, s, w)) < Work(m, s)
  {
    hide WorkersWork, TasksWork, SeatsWork, PendingWork, BrokerOk, Held, OnSolo, Suspended, Share, Slots, Count, Rows, DispatchWork, HeldAll, SlotsOf;
    var v, v' := s.workers[w], Submitted(s, w).workers[w];
    assert WorkerOk(c, m, w, v);
    assert v.outbox == [Request(w, v.nextNumber - 1, SlotsOf(v.phase.needs))];
    WorkersWorkUpdate(m, s.workers, w, v');
    RowsPush(s.broker.pending, v.outbox[0]);
  }

  lemma RowsPush(pending: seq<Request>, r: Request)
    ensures Rows(pending + [r]) == Rows(pending) + |r.slots|
  {
    assert (pending + [r])[..|pending|] == pending;
  }

  lemma TakeBatchWorks(m: Machine, s: State, k: nat, cap: nat)
    requires s.broker.dispatch.Idle? && IsBatch(s.broker.pending, cap, k)
    ensures Work(m, DoTakeBatch(s, k)) < Work(m, s)
  {
    hide WorkersWork, PendingWork, Rows;
    var pending := s.broker.pending;
    assert pending == pending[..k] + pending[k..];
    RowsSplit(pending[..k], pending[k..]);
  }

  lemma DispatchSteps(c: Config, m: Machine, s: State, step: Step)
    requires Inv(c, m, s) && Enabled(c, s, step) && (step.Gather? || step.Infer? || step.Finish? || step.Rest?)
    ensures Work(m, Successor(c, m, s, step)) < Work(m, s)
  {
    hide Inv, WorkersWork, PendingWork, Rows, Flat, Broken, IsBatch, WorkerEnabled, DoGather;
    DispatchSizes(c, m, s);
    if step.Gather? {
      GatherWorks(c, m, s);
    }
  }

  lemma DispatchSizes(c: Config, m: Machine, s: State)
    requires Inv(c, m, s)
    ensures s.broker.dispatch.Gathering? ==> |s.broker.dispatch.staging| <= Rows(s.broker.dispatch.batch)
    ensures s.broker.dispatch.Scattering? ==> s.broker.dispatch.offset <= Rows(s.broker.dispatch.batch)
  {
    hide Flat, AllWorkersOk, FlightOk, Accounted, Tracked, Rows;
  }

  lemma GatherWorks(c: Config, m: Machine, s: State)
    requires Inv(c, m, s) && s.broker.dispatch.Gathering? && |s.broker.dispatch.staging| < Rows(s.broker.dispatch.batch)
    ensures Work(m, DoGather(s)) < Work(m, s)
  {
    hide Inv, WorkersWork, PendingWork, Rows, Flat, BrokerOk, Tracked, WorkerOk, Accepted, InputAt;
    InvParts(c, m, s);
    var d := s.broker.dispatch;
    assert Flat(d.batch)[|d.staging|] in Flat(d.batch);
    RowsInRange(c, m, s, Flat(d.batch)[|d.staging|]);
  }

  lemma ScatterWorks(c: Config, m: Machine, s: State)
    requires Inv(c, m, s) && s.broker.dispatch.Scattering? && s.broker.dispatch.offset < Rows(s.broker.dispatch.batch)
    ensures Work(m, DoScatter(s)) < Work(m, s)
  {
    hide WorkersWork, WorkerWork, PendingWork, Rows, Flat, WorkerOk, FlightOk, Accounted, Tracked;
    InvParts(c, m, s);
    var d := s.broker.dispatch;
    var at := Flat(d.batch)[d.offset];
    assert at in Flat(d.batch);
    RowsInRange(c, m, s, at);
    var v := s.workers[at.0];
    var v' := v.(outputs := v.outputs[at.1 := d.results[d.offset]]);
    WorkersWorkUpdate(m, s.workers, at.0, v');
    OutputsAreNoWork(m, v, v');
  }

  lemma OutputsAreNoWork(m: Machine, v: Worker, v': Worker)
    requires v' == v.(outputs := v'.outputs)
    ensures WorkerWork(m, v') == WorkerWork(m, v)
  {
  }

  lemma RespondWorks(c: Config, m: Machine, s: State)
    requires Inv(c, m, s) && s.broker.dispatch.Responding? && s.broker.dispatch.batch != []
    ensures Work(m, DoRespond(s)) < Work(m, s)
  {
    hide WorkersWork, TasksWork, SeatsWork, PendingWork, Rows, Flat, WorkerOk, Accounted, Tracked, DispatchOk;
    var r := s.broker.dispatch.batch[0];
    BatchPart(m, s, 0);
    var v := s.workers[r.worker];
    WorkersWorkUpdate(m, s.workers, r.worker, v.(responses := v.responses + [Response(r.number, r.slots)]));
  }

  lemma HeardWorks(m: Machine, s: State, w: nat)
    requires w < |s.workers| && s.workers[w].reports != []
    ensures WorkerWork(m, Heard(s, w)) + PendingWork(m, if s.pending == [] then [] else s.pending[1..]) < WorkerWork(m, s.workers[w]) + PendingWork(m, s.pending)
  {
    hide TasksWork, SeatsWork, PendingWork, PhaseWork, GameWork;
    var v := s.workers[w];
    PhaseWorkOf(v, Heard(s, w));
    if s.pending != [] {
      PendingWorkTail(m, s.pending);
      TasksWorkPush(m, v.tasks, Play(s.pending[0]));
    }
  }

  lemma PhaseWorkOf(v: Worker, v': Worker)
    requires v'.phase == v.phase && v'.responses == v.responses && v'.outbox == v.outbox
    ensures PhaseWork(v') == PhaseWork(v)
  {
  }

  lemma {:induction false} StopsWork(m: Machine, workers: seq<Worker>)
    ensures WorkersWork(m, AddStops(workers)) == WorkersWork(m, workers) + |workers|
  {
    hide WorkerWork;
    if workers != [] {
      var last := |workers| - 1;
      assert AddStops(workers)[..last] == AddStops(workers[..last]);
      StopsWork(m, workers[..last]);
      StopWork(m, workers[last]);
    }
  }

  lemma StopWork(m: Machine, v: Worker)
    ensures WorkerWork(m, v.(tasks := v.tasks + [TaskStop])) == WorkerWork(m, v) + 1
  {
    hide TasksWork, SeatsWork, PhaseWork;
    TasksWorkPush(m, v.tasks, TaskStop);
    PhaseWorkOf(v, v.(tasks := v.tasks + [TaskStop]));
  }

  lemma HandleWorks(c: Config, m: Machine, s: State, w: nat)
    requires Inv(c, m, s) && w < |s.workers| && s.workers[w].reports != [] && |s.completed| < |c.ids|
    ensures Work(m, DoHandle(c, s, w)) < Work(m, s)
  {
    hide WorkersWork, WorkerWork, PendingWork, BrokerWork, WorkerOk, BrokerOk, Accounted, Tracked, DoHandle, Heard, FullyLoaded;
    InvAccounts(c, m, s);
    ReportIsNew(c, s, w);
    HandleIs(c, s, w);
    HeardWorks(m, s, w);
    var middle := s.workers[w := Heard(s, w)];
    WorkersWorkUpdate(m, s.workers, w, Heard(s, w));
    StopsWork(m, middle);
  }

  lemma InvAccounts(c: Config, m: Machine, s: State)
    requires Inv(c, m, s)
    ensures Accepted(c) && Accounted(c, s) && StopsInOrder(c, s) && ResultsSolo(m, s.completed)
    ensures Count(c) > 0 && AllWorkersOk(c, m, s.workers)
  {
    hide WorkerOk, BrokerOk, Accounted, StopsInOrder, ResultsSolo, Accepted;
  }

  lemma HeldIsGiven(c: Config, s: State, w: nat, id: Id)
    requires Accounted(c, s) && w < |s.workers| && id in Held(s.workers[w])
    ensures id in c.ids
  {
    hide Held, HeldAll;
    HeldWithin(s.workers, w);
    assert multiset(c.ids)[id] >= HeldAll(s.workers)[id] > 0;
  }

  /** When every game ends on its own, every step of the engine uses up work. */
  lemma StepWorks(c: Config, m: Machine, s: State, step: Step)
    requires Inv(c, m, s) && Enabled(c, s, step) && forall id :: id in c.ids ==> Ends(m, m.start(id))
    ensures Work(m, Successor(c, m, s, step)) < Work(m, s)
  {
    hide Ends, IsBatch, Rows, WorkerNext, WorkerEnabled, DoIngress, DoTakeBatch, DoScatter, DoRespond, DoHandle, Work, WorkerOk, BrokerOk, Accounted, Held, HeldAll;
    if WorkerStep(step) {
      var w := step.w;
      var v' := WorkerNext(m, s.workers[w], step);
      forall id | id in Held(s.workers[w]) ensures Ends(m, m.start(id)) {
        HeldIsGiven(c, s, w, id);
      }
      assert WorkerOk(c, m, w, s.workers[w]);
      WorkerStepWorks(c, m, w, s.workers[w], step);
      OneWorkerWorks(m, s, w, v');
    } else {
      match step {
        case Ingress(w) => IngressWorks(c, m, s, w);
        case TakeBatch(k) => TakeBatchWorks(m, s, k, c.batchCap);
        case Scatter => ScatterWorks(c, m, s);
        case Respond => RespondWorks(c, m, s);
        case Handle(w) => HandleWorks(c, m, s, w);
        case _ => DispatchSteps(c, m, s, step);
      }
    }
  }

  lemma OneWorkerWorks(m: Machine, s: State, w: nat, v': Worker)
    requires w < |s.workers| && WorkerWork(m, v') < WorkerWork(m, s.workers[w])
    ensures Work(m, s.(workers := s.workers[w := v'])) < Work(m, s)
  {
    hide WorkerWork, BrokerWork, PendingWork, WorkersWork;
    WorkersWorkUpdate(m, s.workers, w, v');
  }

  // ----- work is never negative -----

  lemma {:induction false} WorkersWorkNonNegative(c: Config, m: Machine, workers: seq<Worker>)
    requires Count(c) > 0 && forall w :: 0 <= w < |workers| ==> WorkerOk(c, m, w, workers[w])
    ensures WorkersWork(m, workers) >= 0
  {
    hide WorkerOk, WorkerWork, Count;
    if workers != [] {
      var last := |workers| - 1;
      WorkersWorkNonNegative(c, m, workers[..last]);
      WorkerWorkNonNegative(c, m, last, workers[last]);
    }
  }

  lemma WorkerWorkNonNegative(c: Config, m: Machine, w: nat, v: Worker)
    requires Count(c) > 0 && WorkerOk(c, m, w, v)
    ensures WorkerWork(m, v) >= 0
  {
    hide TasksWork, SeatsWork, HangingIn, OnSolo, Suspended, Share, Slots, Count, Held;
  }

  lemma WorkNonNegative(c: Config, m: Machine, s: State)
    requires Inv(c, m, s)
    ensures Work(m, s) >= 0
  {
    hide WorkersWork, PendingWork, Rows, Flat, WorkerOk, FlightOk, Accounted, Tracked;
    WorkersWorkNonNegative(c, m, s.workers);
  }
}
