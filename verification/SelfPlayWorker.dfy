/** What every step of a worker process keeps: its games stay on their solo runs, its ids stay accounted for. */
module SelfPlayWorker {
  import opened Options
  import opened SelfPlayMachine
  import opened SelfPlayProtocol

  // ----- ids held by a worker -----

  function IdOf(seat: Option<Seat>): multiset<Id> {
    match seat case None => multiset{} case Some(s) => multiset{s.id}
  }

  function SeatIds(seats: seq<Option<Seat>>): multiset<Id> {
    if seats == [] then multiset{} else SeatIds(seats[..|seats| - 1]) + IdOf(seats[|seats| - 1])
  }

  function TaskId(task: Task): multiset<Id> {
    match task case TaskStop => multiset{} case Play(id) => multiset{id}
  }

  function TaskIds(tasks: seq<Task>): multiset<Id> {
    if tasks == [] then multiset{} else TaskIds(tasks[..|tasks| - 1]) + TaskId(tasks[|tasks| - 1])
  }

  function ReportIds(reports: seq<Report>): multiset<Id> {
    if reports == [] then multiset{} else ReportIds(reports[..|reports| - 1]) + multiset{reports[|reports| - 1].id}
  }

  /** Queued, active and finished but not yet handled. */
  function Held(v: Worker): multiset<Id> {
    TaskIds(v.tasks) + SeatIds(v.seats) + ReportIds(v.reports)
  }

  lemma Shifted(a': multiset<Id>, x: multiset<Id>, a: multiset<Id>, y: multiset<Id>, z: multiset<Id>)
    requires a' + x == a + y
    ensures (a' + z) + x == (a + z) + y
  {
    assert (a' + z) + x == (a' + x) + z;
  }

  lemma {:induction false} SeatCountUpdate(seats: seq<Option<Seat>>, k: nat, x: Option<Seat>, id: Id)
    requires k < |seats|
    ensures SeatIds(seats[k := x])[id] + IdOf(seats[k])[id] == SeatIds(seats)[id] + IdOf(x)[id]
  {
    hide IdOf;
    var last := |seats| - 1;
    var updated := seats[k := x];
    if k < last {
      assert updated[..last] == seats[..last][k := x];
      SeatCountUpdate(seats[..last], k, x, id);
    } else {
      assert updated[..last] == seats[..last];
    }
  }

  lemma SeatIdsUpdate(seats: seq<Option<Seat>>, k: nat, x: Option<Seat>)
    requires k < |seats|
    ensures SeatIds(seats[k := x]) + IdOf(seats[k]) == SeatIds(seats) + IdOf(x)
  {
    hide SeatIds, IdOf;
    forall id ensures (SeatIds(seats[k := x]) + IdOf(seats[k]))[id] == (SeatIds(seats) + IdOf(x))[id] {
      SeatCountUpdate(seats, k, x, id);
    }
  }

  lemma SeatTaken(seats: seq<Option<Seat>>, k: nat, seat: Seat)
    requires k < |seats| && seats[k].None?
    ensures SeatIds(seats[k := Some(seat)]) == SeatIds(seats) + multiset{seat.id}
  {
    SeatIdsUpdate(seats, k, Some(seat));
  }

  lemma SeatFreed(seats: seq<Option<Seat>>, k: nat)
    requires k < |seats| && seats[k].Some?
    ensures SeatIds(seats) == SeatIds(seats[k := None]) + multiset{seats[k].value.id}
  {
    SeatIdsUpdate(seats, k, None);
  }

  lemma SeatKept(seats: seq<Option<Seat>>, k: nat, game: Game)
    requires k < |seats| && seats[k].Some?
    ensures SeatIds(seats[k := Some(Seat(seats[k].value.id, game))]) == SeatIds(seats)
  {
    var x := Some(Seat(seats[k].value.id, game));
    SeatIdsUpdate(seats, k, x);
    Cancels(SeatIds(seats[k := x]), SeatIds(seats), IdOf(x));
  }

  lemma Cancels(a: multiset<Id>, b: multiset<Id>, x: multiset<Id>)
    ensures a + x == b + x ==> a == b
  {
    if a + x == b + x {
      forall y ensures a[y] == b[y] {
        assert (a + x)[y] == (b + x)[y];
      }
    }
  }

  lemma {:induction false} SeatIdsCount(seats: seq<Option<Seat>>)
    ensures |SeatIds(seats)| == Occupied(seats)
  {
    if seats != [] {
      SeatIdsCount(seats[..|seats| - 1]);
    }
  }

  lemma {:induction false} TaskIdsTail(tasks: seq<Task>)
    requires tasks != []
    ensures TaskIds(tasks) == TaskId(tasks[0]) + TaskIds(tasks[1..])
  {
    hide TaskId;
    var last := |tasks| - 1;
    if last > 0 {
      TaskIdsTail(tasks[..last]);
      assert tasks[1..][..last - 1] == tasks[..last][1..];
    }
  }

  lemma {:induction false} ReportIdsTail(reports: seq<Report>)
    requires reports != []
    ensures ReportIds(reports) == multiset{reports[0].id} + ReportIds(reports[1..])
  {
    var last := |reports| - 1;
    if last > 0 {
      ReportIdsTail(reports[..last]);
      assert reports[1..][..last - 1] == reports[..last][1..];
    }
  }

  lemma TaskIdsPush(tasks: seq<Task>, task: Task)
    ensures TaskIds(tasks + [task]) == TaskIds(tasks) + TaskId(task)
  {
    assert (tasks + [task])[..|tasks|] == tasks;
  }

  lemma ReportIdsPush(reports: seq<Report>, report: Report)
    ensures ReportIds(reports + [report]) == ReportIds(reports) + multiset{report.id}
  {
    assert (reports + [report])[..|reports|] == reports;
  }

  // ----- slots -----

  predicate Increasing(slots: seq<nat>) {
    forall i, j :: 0 <= i < j < |slots| ==> slots[i] < slots[j]
  }

  predicate NeedsOrdered(needs: seq<Need>) {
    forall i, j :: 0 <= i < j < |needs| ==> needs[i].slot < needs[j].slot
  }

  predicate Needed(needs: seq<Need>, slot: nat) {
    exists i :: 0 <= i < |needs| && needs[i].slot == slot
  }

  lemma {:induction false} ActiveSlotsAre(seats: seq<Option<Seat>>)
    ensures Increasing(ActiveSlots(seats))
    ensures forall k: nat :: k in ActiveSlots(seats) <==> k < |seats| && seats[k].Some?
    ensures |ActiveSlots(seats)| == Occupied(seats)
  {
    if seats != [] {
      var last := |seats| - 1;
      ActiveSlotsAre(seats[..last]);
      forall i | 0 <= i < |ActiveSlots(seats[..last])| ensures ActiveSlots(seats[..last])[i] < last {
        assert ActiveSlots(seats[..last])[i] in ActiveSlots(seats[..last]);
      }
    }
  }

  lemma {:induction false} NeedsCount(seats: seq<Option<Seat>>, needs: seq<Need>)
    requires NeedsOrdered(needs) && forall i :: 0 <= i < |needs| ==> needs[i].slot < |seats| && seats[needs[i].slot].Some?
    ensures |needs| <= Occupied(seats)
    decreases |seats|
  {
    if needs != [] {
      var last, top := |seats| - 1, |needs| - 1;
      if needs[top].slot == last {
        NeedsCount(seats[..last], needs[..top]);
      } else {
        forall i | 0 <= i < |needs| ensures needs[i].slot < last {
          assert needs[i].slot <= needs[top].slot;
        }
        NeedsCount(seats[..last], needs);
      }
    }
  }

  // ----- the worker invariant -----

  ghost predicate Ready(m: Machine, seats: seq<Option<Seat>>, slot: nat) {
    slot < |seats| && seats[slot].Some? && OnSolo(m, seats[slot].value.id, seats[slot].value.game)
  }

  ghost predicate Hanging(m: Machine, seats: seq<Option<Seat>>, need: Need) {
    && need.slot < |seats| && seats[need.slot].Some?
    && Suspended(m, seats[need.slot].value.id, seats[need.slot].value.game, need.row)
  }

  predicate Quiet(v: Worker) {
    v.leased == {} && v.outbox == [] && v.responses == []
  }

  predicate Leased(v: Worker, needs: seq<Need>) {
    && (forall i :: 0 <= i < |needs| ==> needs[i].slot in v.leased)
    && (forall slot :: slot in v.leased ==> Needed(needs, slot))
  }

  /** Exactly the games of these needs are active, each suspended on its row. */
  ghost predicate AllHanging(m: Machine, v: Worker, needs: seq<Need>) {
    && needs != [] && NeedsOrdered(needs)
    && (forall i :: 0 <= i < |needs| ==> Hanging(m, v.seats, needs[i]))
    && (forall k: nat :: k < |v.seats| && v.seats[k].Some? ==> Needed(needs, k))
  }

  predicate InputsWritten(v: Worker, needs: seq<Need>, k: nat) {
    forall i :: 0 <= i < k && i < |needs| ==> needs[i].slot < |v.inputs| && v.inputs[needs[i].slot] == needs[i].row
  }

  predicate OutputsReady(m: Machine, v: Worker, needs: seq<Need>) {
    forall i :: 0 <= i < |needs| ==> needs[i].slot < |v.outputs| && v.outputs[needs[i].slot] == m.infer(needs[i].row)
  }

  predicate Evaluated(m: Machine, needs: seq<Need>, evaluations: seq<Evaluation>) {
    && |evaluations| <= |needs|
    && forall i :: 0 <= i < |evaluations| ==> evaluations[i] == m.infer(needs[i].row)
  }

  ghost predicate FillingOk(m: Machine, v: Worker) {
    Quiet(v) && forall k: nat :: k < |v.seats| && v.seats[k].Some? ==> Ready(m, v.seats, k)
  }

  ghost predicate AdvancingOk(m: Machine, v: Worker, todo: seq<nat>, needs: seq<Need>) {
    && Quiet(v) && Increasing(todo) && NeedsOrdered(needs)
    && (forall i, j :: 0 <= i < |needs| && 0 <= j < |todo| ==> needs[i].slot < todo[j])
    && (forall j :: 0 <= j < |todo| ==> Ready(m, v.seats, todo[j]))
    && (forall i :: 0 <= i < |needs| ==> Hanging(m, v.seats, needs[i]))
    && (forall k: nat :: k < |v.seats| && v.seats[k].Some? ==> k in todo || Needed(needs, k))
  }

  ghost predicate WaitingOk(m: Machine, w: nat, v: Worker, needs: seq<Need>) {
    && AllHanging(m, v, needs) && Leased(v, needs) && InputsWritten(v, needs, |needs|) && v.nextNumber > 0
    && (v.outbox == [] || v.outbox == [Request(w, v.nextNumber - 1, SlotsOf(needs))])
    && (v.responses == [] ||
        (v.responses == [Response(v.nextNumber - 1, SlotsOf(needs))] && v.outbox == [] && OutputsReady(m, v, needs)))
  }

  ghost predicate ResumingOk(m: Machine, v: Worker, needs: seq<Need>, evaluations: seq<Evaluation>, resumed: nat) {
    && Quiet(v) && needs != [] && NeedsOrdered(needs) && |evaluations| == |needs| && Evaluated(m, needs, evaluations)
    && resumed <= |needs|
    && (forall i :: 0 <= i < resumed ==> Ready(m, v.seats, needs[i].slot))
    && (forall i :: resumed <= i < |needs| ==> Hanging(m, v.seats, needs[i]))
    && (forall k: nat :: k < |v.seats| && v.seats[k].Some? ==> Needed(needs, k))
  }

  ghost predicate PhaseOk(m: Machine, w: nat, v: Worker) {
    match v.phase
    case Filling => FillingOk(m, v)
    case Advancing(todo, needs) => AdvancingOk(m, v, todo, needs)
    case Writing(needs, written) =>
      AllHanging(m, v, needs) && Leased(v, needs) && written <= |needs| && InputsWritten(v, needs, written) && v.outbox == [] && v.responses == []
    case Waiting(needs) => WaitingOk(m, w, v, needs)
    case Reading(needs, evaluations) =>
      AllHanging(m, v, needs) && Leased(v, needs) && OutputsReady(m, v, needs) && Evaluated(m, needs, evaluations) && v.outbox == [] && v.responses == []
    case Resuming(needs, evaluations, resumed) => ResumingOk(m, v, needs, evaluations, resumed)
    case Stopped => Quiet(v) && v.stopSeen && Occupied(v.seats) == 0
  }

  ghost predicate ReportsSolo(m: Machine, reports: seq<Report>) {
    forall i :: 0 <= i < |reports| ==> IsSoloRecord(m, reports[i].id, reports[i].record)
  }

  ghost predicate WorkerOk(c: Config, m: Machine, w: nat, v: Worker)
    requires Count(c) > 0
  {
    && |v.seats| == |v.inputs| == |v.outputs| == Slots(c) && v.share == Share(c, w) && !v.failed
    && |Held(v)| <= v.share <= Slots(c)
    && PhaseOk(m, w, v) && ReportsSolo(m, v.reports)
  }

  /** A request of this worker is with the broker, and nothing of it is back yet. */
  predicate InFlight(v: Worker) {
    v.phase.Waiting? && v.outbox == [] && v.responses == []
  }

  /** What a worker step may not disturb. */
  predicate KeepsAccount(v: Worker, v': Worker) {
    && Held(v') == Held(v) && v'.share == v.share && !InFlight(v) && !InFlight(v')
    && (TaskStop in v'.tasks || v'.stopSeen ==> TaskStop in v.tasks || v.stopSeen)
  }

  // ----- one lemma per step -----

  lemma TakeKeeps(c: Config, m: Machine, w: nat, v: Worker)
    requires Count(c) > 0 && WorkerOk(c, m, w, v) && CanTake(v)
    ensures WorkerOk(c, m, w, TakeTask(m, v)) && KeepsAccount(v, TakeTask(m, v))
  {
    hide OnSolo, Share, Slots, Count, SeatIds, TaskIds, ReportIds, Occupied;
    match v.tasks[0]
    case TaskStop => TaskIdsTail(v.tasks);
    case Play(id) =>
      FreeWhenPlay(c, m, w, v);
      PlayHeld(m, v);
      PlayReady(m, v);
  }

  /** A queued game fits: a worker never holds more games than it has seats. */
  lemma FreeWhenPlay(c: Config, m: Machine, w: nat, v: Worker)
    requires Count(c) > 0 && WorkerOk(c, m, w, v) && CanTake(v) && v.tasks[0].Play?
    ensures Occupied(v.seats) < |v.seats|
  {
    hide OnSolo, Share, Slots, Count, SeatIds, TaskIds, ReportIds, Occupied, PhaseOk, ReportsSolo;
    TaskIdsTail(v.tasks);
    SeatIdsCount(v.seats);
  }

  lemma PlayHeld(m: Machine, v: Worker)
    requires CanTake(v) && v.tasks[0].Play? && Occupied(v.seats) < |v.seats|
    ensures Held(TakeTask(m, v)) == Held(v)
  {
    hide SeatIds, TaskIds, ReportIds, Occupied;
    TaskIdsTail(v.tasks);
    SeatTaken(v.seats, FreeSlot(v.seats), Seat(v.tasks[0].id, m.start(v.tasks[0].id)));
  }

  lemma PlayReady(m: Machine, v: Worker)
    requires CanTake(v) && v.tasks[0].Play? && Occupied(v.seats) < |v.seats| && FillingOk(m, v)
    ensures FillingOk(m, TakeTask(m, v))
  {
    hide OnSolo, Occupied;
    StartIsSolo(m, v.tasks[0].id);
  }

  lemma BeginKeeps(c: Config, m: Machine, w: nat, v: Worker)
    requires Count(c) > 0 && WorkerOk(c, m, w, v) && CanBegin(v)
    ensures WorkerOk(c, m, w, BeginRound(v)) && KeepsAccount(v, BeginRound(v))
  {
    hide OnSolo, Share, Slots, Count, SeatIds, TaskIds, ReportIds, Occupied, ActiveSlots;
    ActiveSlotsAre(v.seats);
    var todo := ActiveSlots(v.seats);
    forall j | 0 <= j < |todo| ensures Ready(m, v.seats, todo[j]) {
      assert todo[j] in todo;
    }
  }

  lemma AdvanceKeeps(c: Config, m: Machine, w: nat, v: Worker)
    requires Count(c) > 0 && WorkerOk(c, m, w, v) && CanAdvance(v)
    ensures WorkerOk(c, m, w, AdvanceOne(m, v)) && KeepsAccount(v, AdvanceOne(m, v))
  {
    hide OnSolo, Share, Slots, Count, SeatIds, TaskIds, ReportIds, Suspended, IsSoloRecord;
    var slot := v.phase.todo[0];
    assert Ready(m, v.seats, slot);
    var seat := v.seats[slot].value;
    match m.advance(seat.game)
    case InferenceNeed(game, payload) => NeedKeeps(c, m, w, v, game, payload);
    case GameFinished(record) => EndedKeeps(c, m, w, v, record);
  }

  lemma NeedKeeps(c: Config, m: Machine, w: nat, v: Worker, game: Game, payload: Row)
    requires Count(c) > 0 && WorkerOk(c, m, w, v) && CanAdvance(v) && Ready(m, v.seats, v.phase.todo[0])
    requires m.advance(v.seats[v.phase.todo[0]].value.game) == InferenceNeed(game, payload)
    ensures WorkerOk(c, m, w, AdvanceOne(m, v)) && KeepsAccount(v, AdvanceOne(m, v))
  {
    hide OnSolo, Share, Slots, Count, SeatIds, TaskIds, ReportIds, Suspended, IsSoloRecord, AdvancingOk, ReportsSolo;
    var slot := v.phase.todo[0];
    var seat := v.seats[slot].value;
    SeatKept(v.seats, slot, game);
    SuspendedHere(m, seat.id, seat.game, game, payload);
    AdvancedNeeds(m, v, game, payload);
    AdvancingIgnores(m, v.(seats := AdvanceOne(m, v).seats), AdvanceOne(m, v), v.phase.todo[1..], v.phase.needs + [Need(slot, payload)]);
    assert Held(AdvanceOne(m, v)) == Held(v);
  }

  lemma EndedKeeps(c: Config, m: Machine, w: nat, v: Worker, record: Record)
    requires Count(c) > 0 && WorkerOk(c, m, w, v) && CanAdvance(v) && Ready(m, v.seats, v.phase.todo[0])
    requires m.advance(v.seats[v.phase.todo[0]].value.game) == GameFinished(record)
    ensures WorkerOk(c, m, w, AdvanceOne(m, v)) && KeepsAccount(v, AdvanceOne(m, v))
  {
    hide OnSolo, Share, Slots, Count, SeatIds, TaskIds, ReportIds, Suspended, IsSoloRecord, AdvancingOk;
    var slot := v.phase.todo[0];
    var seat := v.seats[slot].value;
    SeatFreed(v.seats, slot);
    FinishedHere(m, seat.id, seat.game, record);
    ReportIdsPush(v.reports, Completed(slot, seat.id, record));
    AdvancedFinishes(m, v);
    AdvancingIgnores(m, v.(seats := AdvanceOne(m, v).seats), AdvanceOne(m, v), v.phase.todo[1..], v.phase.needs);
    assert Held(AdvanceOne(m, v)) == Held(v);
  }

  lemma AdvancingIgnores(m: Machine, v: Worker, v': Worker, todo: seq<nat>, needs: seq<Need>)
    requires AdvancingOk(m, v, todo, needs) && v'.seats == v.seats
    requires v'.leased == v.leased && v'.outbox == v.outbox && v'.responses == v.responses
    ensures AdvancingOk(m, v', todo, needs) && v'.outbox == []
  {
  }

  lemma SuspendedHere(m: Machine, id: Id, ready: Game, game: Game, payload: Row)
    requires OnSolo(m, id, ready) && m.advance(ready) == InferenceNeed(game, payload)
    ensures Suspended(m, id, game, payload)
  {
  }

  lemma FinishedHere(m: Machine, id: Id, ready: Game, record: Record)
    requires OnSolo(m, id, ready) && m.advance(ready) == GameFinished(record)
    ensures IsSoloRecord(m, id, record)
  {
  }

  lemma NeededPush(needs: seq<Need>, need: Need, k: nat)
    ensures Needed(needs + [need], k) <==> Needed(needs, k) || need.slot == k
  {
    var needs' := needs + [need];
    if Needed(needs, k) {
      var i :| 0 <= i < |needs| && needs[i].slot == k;
      assert needs'[i].slot == k;
    }
    if need.slot == k {
      assert needs'[|needs|].slot == k;
    }
  }

  lemma AdvancedNeeds(m: Machine, v: Worker, game: Game, payload: Row)
    requires CanAdvance(v) && AdvancingOk(m, v, v.phase.todo, v.phase.needs)
    requires Suspended(m, v.seats[v.phase.todo[0]].value.id, game, payload)
    ensures var slot := v.phase.todo[0];
      AdvancingOk(m, v.(seats := v.seats[slot := Some(Seat(v.seats[slot].value.id, game))]), v.phase.todo[1..], v.phase.needs + [Need(slot, payload)])
  {
    hide OnSolo, Suspended, Needed;
    var todo, needs := v.phase.todo, v.phase.needs;
    var slot := todo[0];
    var needs' := needs + [Need(slot, payload)];
    var v' := v.(seats := v.seats[slot := Some(Seat(v.seats[slot].value.id, game))]);
    forall k: nat | k < |v'.seats| && v'.seats[k].Some? ensures k in todo[1..] || Needed(needs', k) {
      NeededPush(needs, Need(slot, payload), k);
      assert k in todo ==> k == slot || k in todo[1..];
    }
    forall j | 0 <= j < |todo[1..]| ensures todo[1..][j] > slot && Ready(m, v'.seats, todo[1..][j]) {
      assert Ready(m, v.seats, todo[j + 1]);
    }
  }

  lemma AdvancedFinishes(m: Machine, v: Worker)
    requires CanAdvance(v) && AdvancingOk(m, v, v.phase.todo, v.phase.needs)
    ensures AdvancingOk(m, v.(seats := v.seats[v.phase.todo[0] := None]), v.phase.todo[1..], v.phase.needs)
  {
    hide OnSolo, Suspended;
    var todo := v.phase.todo;
    assert Ready(m, v.seats, todo[0]);
    forall j | 0 <= j < |todo[1..]| ensures todo[1..][j] > todo[0] && Ready(m, v.seats[todo[0] := None], todo[1..][j]) {
      assert Ready(m, v.seats, todo[j + 1]);
    }
  }

  lemma EndKeeps(c: Config, m: Machine, w: nat, v: Worker)
    requires Count(c) > 0 && WorkerOk(c, m, w, v) && AllAdvanced(v)
    ensures WorkerOk(c, m, w, EndRound(v)) && KeepsAccount(v, EndRound(v))
  {
    hide OnSolo, Share, Slots, Count, SeatIds, TaskIds, ReportIds, Suspended;
    var needs := v.phase.needs;
    if needs != [] {
      var slots := SlotsOf(needs);
      assert MayLease(v, slots);
      forall slot | slot in EndRound(v).leased ensures Needed(needs, slot) {
        var i :| 0 <= i < |needs| && needs[i].slot == slot;
      }
    }
  }

  lemma WriteKeeps(c: Config, m: Machine, w: nat, v: Worker)
    requires Count(c) > 0 && WorkerOk(c, m, w, v) && CanWrite(v)
    ensures WorkerOk(c, m, w, WriteOne(v)) && KeepsAccount(v, WriteOne(v))
  {
    hide OnSolo, Share, Slots, Count, SeatIds, TaskIds, ReportIds, Suspended;
    assert Hanging(m, v.seats, v.phase.needs[v.phase.written]);
  }

  lemma SendKeeps(c: Config, m: Machine, w: nat, v: Worker)
    requires Count(c) > 0 && WorkerOk(c, m, w, v) && CanSend(v)
    ensures WorkerOk(c, m, w, Send(w, v)) && KeepsAccount(v, Send(w, v))
  {
    hide OnSolo, Share, Slots, Count, SeatIds, TaskIds, ReportIds, Suspended, SlotsOf;
  }

  lemma ReceiveKeeps(c: Config, m: Machine, w: nat, v: Worker)
    requires Count(c) > 0 && WorkerOk(c, m, w, v) && CanReceive(v)
    ensures WorkerOk(c, m, w, Receive(v)) && KeepsAccount(v, Receive(v))
  {
    hide OnSolo, Share, Slots, Count, SeatIds, TaskIds, ReportIds, Suspended, SlotsOf;
  }

  lemma ReadKeeps(c: Config, m: Machine, w: nat, v: Worker)
    requires Count(c) > 0 && WorkerOk(c, m, w, v) && CanRead(v)
    ensures WorkerOk(c, m, w, ReadOne(v)) && KeepsAccount(v, ReadOne(v))
  {
    hide OnSolo, Share, Slots, Count, SeatIds, TaskIds, ReportIds, Suspended;
  }

  lemma ReleaseKeeps(c: Config, m: Machine, w: nat, v: Worker)
    requires Count(c) > 0 && WorkerOk(c, m, w, v) && CanRelease(v)
    ensures WorkerOk(c, m, w, Release(v)) && KeepsAccount(v, Release(v))
  {
    hide OnSolo, Share, Slots, Count, SeatIds, TaskIds, ReportIds, Suspended;
    var needs := v.phase.needs;
    var released := set i | 0 <= i < |needs| :: needs[i].slot;
    forall slot | slot in v.leased ensures slot in released {
      var i :| 0 <= i < |needs| && needs[i].slot == slot;
    }
    assert v.leased - released == {};
  }

  lemma ResumeKeeps(c: Config, m: Machine, w: nat, v: Worker)
    requires Count(c) > 0 && WorkerOk(c, m, w, v) && CanResume(v)
    ensures WorkerOk(c, m, w, ResumeOne(m, v)) && KeepsAccount(v, ResumeOne(m, v))
  {
    hide OnSolo, Share, Slots, Count, SeatIds, TaskIds, ReportIds, Suspended;
    var k, needs := v.phase.resumed, v.phase.needs;
    assert Hanging(m, v.seats, needs[k]);
    var seat := v.seats[needs[k].slot].value;
    ResumeIsSolo(m, seat.id, seat.game, needs[k].row);
    SeatKept(v.seats, needs[k].slot, m.resume(seat.game, v.phase.evaluations[k]));
    assert Held(ResumeOne(m, v)) == Held(v);
  }

  lemma NextKeeps(c: Config, m: Machine, w: nat, v: Worker)
    requires Count(c) > 0 && WorkerOk(c, m, w, v) && AllResumed(v)
    ensures WorkerOk(c, m, w, NextRound(v)) && KeepsAccount(v, NextRound(v))
  {
    hide OnSolo, Share, Slots, Count, SeatIds, TaskIds, ReportIds, Suspended;
    var needs := v.phase.needs;
    forall k: nat | k < |v.seats| && v.seats[k].Some? ensures Ready(m, v.seats, k) {
      var i :| 0 <= i < |needs| && needs[i].slot == k;
    }
  }

  lemma StopKeeps(c: Config, m: Machine, w: nat, v: Worker)
    requires Count(c) > 0 && WorkerOk(c, m, w, v) && CanStop(v)
    ensures WorkerOk(c, m, w, Stop(v)) && KeepsAccount(v, Stop(v))
  {
    hide OnSolo, Share, Slots, Count, SeatIds, TaskIds, ReportIds, Occupied;
  }

  /** Whatever a worker does next, its invariant and its accounts are kept, and none of the client's own
      checks fails: no leased slot, no foreign response, no inactive context. */
  lemma WorkerStepKeeps(c: Config, m: Machine, w: nat, v: Worker, step: Step)
    requires Count(c) > 0 && WorkerOk(c, m, w, v) && WorkerStep(step) && step.w == w && WorkerEnabled(v, step)
    ensures WorkerOk(c, m, w, WorkerNext(m, v, step)) && KeepsAccount(v, WorkerNext(m, v, step))
  {
    hide WorkerOk, KeepsAccount, CanTake, CanBegin, CanStop, CanAdvance, AllAdvanced, CanWrite, CanSend, CanReceive, CanRead, CanRelease, CanResume, AllResumed;
    match step {
      case Take(_) => TakeKeeps(c, m, w, v);
      case Begin(_) => BeginKeeps(c, m, w, v);
      case StopWorker(_) => StopKeeps(c, m, w, v);
      case Advance(_) => AdvanceKeeps(c, m, w, v);
      case End(_) => EndKeeps(c, m, w, v);
      case Write(_) => WriteKeeps(c, m, w, v);
      case Submit(_) => SendKeeps(c, m, w, v);
      case Accept(_) => ReceiveKeeps(c, m, w, v);
      case Read(_) => ReadKeeps(c, m, w, v);
      case Free(_) => ReleaseKeeps(c, m, w, v);
      case Resume(_) => ResumeKeeps(c, m, w, v);
      case Next(_) => NextKeeps(c, m, w, v);
    }
  }
}
