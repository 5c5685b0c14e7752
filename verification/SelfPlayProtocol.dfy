/** The shared-memory self-play engine as a state machine: parent scheduler, worker processes, broker and dispatcher. */
module SelfPlayProtocol {
  import opened Options
  import opened SelfPlayMachine

  // ----- configuration and the initial split -----

  datatype Config = Config(ids: seq<Id>, workers: nat, capacity: nat, totalCap: Option<nat>, batchCap: nat)

  function Least(a: nat, b: nat): nat { if a <= b then a else b }

  /** Worker processes started. */
  function Count(c: Config): nat { Least(c.workers, |c.ids|) }

  /** Games active at once. */
  function Target(c: Config): nat {
    var target := Least(|c.ids|, Count(c) * c.capacity);
    match c.totalCap case None => target case Some(cap) => Least(target, cap)
  }

  ghost predicate Accepted(c: Config) {
    && (forall i, j :: 0 <= i < j < |c.ids| ==> c.ids[i] != c.ids[j])
    && c.ids != [] && c.workers > 0 && c.capacity > 0 && c.batchCap > 0 && c.totalCap != Some(0)
  }

  function Share(c: Config, w: nat): nat
    requires Count(c) > 0
  {
    Target(c) / Count(c) + if w < Target(c) % Count(c) then 1 else 0
  }

  /** Slots allocated for each worker: the largest share. */
  function Slots(c: Config): nat
    requires Count(c) > 0
  {
    Share(c, 0)
  }

  // ----- messages and processes -----

  datatype Seat = Seat(id: Id, game: Game)
  datatype Task = Play(id: Id) | TaskStop
  datatype Need = Need(slot: nat, row: Row)
  datatype Request = Request(worker: nat, number: nat, slots: seq<nat>)
  datatype Response = Response(number: nat, slots: seq<nat>)
  datatype Report = Completed(slot: nat, id: Id, record: Record)

  datatype Phase =
    | Filling
    | Advancing(todo: seq<nat>, needs: seq<Need>)
    | Writing(needs: seq<Need>, written: nat)
    | Waiting(needs: seq<Need>)
    | Reading(needs: seq<Need>, evaluations: seq<Evaluation>)
    | Resuming(needs: seq<Need>, evaluations: seq<Evaluation>, resumed: nat)
    | Stopped

  /** A worker process with its queues and its rows of the shared tensors. */
  datatype Worker = Worker(
    share: nat, tasks: seq<Task>, seats: seq<Option<Seat>>, stopSeen: bool, phase: Phase,
    nextNumber: nat, leased: set<nat>, outbox: seq<Request>, responses: seq<Response>,
    inputs: seq<Row>, outputs: seq<Evaluation>, reports: seq<Report>, failed: bool)

  datatype Dispatch =
    | Idle
    | Gathering(batch: seq<Request>, staging: seq<Row>)
    | Scattering(batch: seq<Request>, results: seq<Evaluation>, offset: nat)
    | Responding(batch: seq<Request>)

  datatype Broker = Broker(pending: seq<Request>, dispatch: Dispatch, fatal: bool)

  datatype State = State(
    workers: seq<Worker>, broker: Broker, pending: seq<Id>, completed: map<Id, Record>, stopsSent: bool, error: bool)

  // ----- worker steps -----

  function Occupied(seats: seq<Option<Seat>>): nat {
    if seats == [] then 0 else Occupied(seats[..|seats| - 1]) + if seats[|seats| - 1].Some? then 1 else 0
  }

  /** The first free slot. */
  function FreeSlot(seats: seq<Option<Seat>>): (k: nat)
    requires Occupied(seats) < |seats|
    ensures k < |seats| && seats[k].None? && forall j :: 0 <= j < k ==> seats[j].Some?
  {
    var last := |seats| - 1;
    if Occupied(seats[..last]) < last then FreeSlot(seats[..last])
    else
      AllOccupied(seats[..last]);
      last
  }

  lemma {:induction false} AllOccupied(seats: seq<Option<Seat>>)
    ensures Occupied(seats) <= |seats|
    ensures Occupied(seats) == |seats| ==> forall j :: 0 <= j < |seats| ==> seats[j].Some?
  {
    if seats != [] {
      AllOccupied(seats[..|seats| - 1]);
    }
  }

  /** The occupied slots in increasing order. */
  function ActiveSlots(seats: seq<Option<Seat>>): seq<nat> {
    if seats == [] then []
    else ActiveSlots(seats[..|seats| - 1]) + if seats[|seats| - 1].Some? then [|seats| - 1] else []
  }

  /** Fill loop while below the limit; the blocking read when nothing is active ignores the limit. */
  predicate CanTake(v: Worker) {
    v.phase.Filling? && v.tasks != [] && !v.stopSeen && (Occupied(v.seats) < v.share || Occupied(v.seats) == 0)
  }

  function TakeTask(m: Machine, v: Worker): Worker
    requires CanTake(v)
  {
    var rest := v.(tasks := v.tasks[1..]);
    match v.tasks[0]
    case TaskStop => rest.(stopSeen := true)
    case Play(id) =>
      if Occupied(v.seats) < |v.seats| then rest.(seats := v.seats[FreeSlot(v.seats) := Some(Seat(id, m.start(id)))])
      else rest.(failed := true)
  }

  predicate CanBegin(v: Worker) {
    v.phase.Filling? && Occupied(v.seats) > 0
  }

  function BeginRound(v: Worker): Worker {
    v.(phase := Advancing(ActiveSlots(v.seats), []))
  }

  predicate CanStop(v: Worker) {
    v.phase.Filling? && Occupied(v.seats) == 0 && v.stopSeen
  }

  function Stop(v: Worker): Worker {
    v.(phase := Stopped)
  }

  predicate CanAdvance(v: Worker) {
    v.phase.Advancing? && v.phase.todo != []
  }

  function AdvanceOne(m: Machine, v: Worker): Worker
    requires CanAdvance(v)
  {
    var slot, rest, needs := v.phase.todo[0], v.phase.todo[1..], v.phase.needs;
    if slot >= |v.seats| || v.seats[slot].None? then v.(failed := true)
    else
      var seat := v.seats[slot].value;
      match m.advance(seat.game)
      case InferenceNeed(game, payload) =>
        v.(seats := v.seats[slot := Some(Seat(seat.id, game))], phase := Advancing(rest, needs + [Need(slot, payload)]))
      case GameFinished(record) =>
        v.(seats := v.seats[slot := None], phase := Advancing(rest, needs), reports := v.reports + [Completed(slot, seat.id, record)])
  }

  function SlotsOf(needs: seq<Need>): (slots: seq<nat>)
    ensures |slots| == |needs|
  {
    seq(|needs|, i requires 0 <= i < |needs| => needs[i].slot)
  }

  predicate AllAdvanced(v: Worker) {
    v.phase.Advancing? && v.phase.todo == []
  }

  /** The checks at the head of a shared request: distinct slots in range, none of them leased. */
  ghost predicate MayLease(v: Worker, slots: seq<nat>) {
    && (forall i, j :: 0 <= i < j < |slots| ==> slots[i] != slots[j])
    && (forall i :: 0 <= i < |slots| ==> slots[i] < |v.inputs| && slots[i] !in v.leased)
  }

  ghost function EndRound(v: Worker): Worker
    requires AllAdvanced(v)
  {
    var needs := v.phase.needs;
    if needs == [] then v.(phase := Filling)
    else if !MayLease(v, SlotsOf(needs)) then v.(failed := true)
    else v.(phase := Writing(needs, 0), leased := v.leased + (set i | 0 <= i < |needs| :: needs[i].slot))
  }

  predicate CanWrite(v: Worker) {
    v.phase.Writing? && v.phase.written < |v.phase.needs|
  }

  function WriteOne(v: Worker): Worker
    requires CanWrite(v)
  {
    var need := v.phase.needs[v.phase.written];
    if need.slot >= |v.inputs| then v.(failed := true)
    else v.(inputs := v.inputs[need.slot := need.row], phase := Writing(v.phase.needs, v.phase.written + 1))
  }

  predicate CanSend(v: Worker) {
    v.phase.Writing? && v.phase.written >= |v.phase.needs|
  }

  function Send(w: nat, v: Worker): Worker
    requires CanSend(v)
  {
    v.(phase := Waiting(v.phase.needs), nextNumber := v.nextNumber + 1,
       outbox := v.outbox + [Request(w, v.nextNumber, SlotsOf(v.phase.needs))])
  }

  predicate CanReceive(v: Worker) {
    v.phase.Waiting? && v.responses != []
  }

  /** The response must carry the request's own number and slots. */
  function Receive(v: Worker): Worker
    requires CanReceive(v)
  {
    var r := v.responses[0];
    if r.number + 1 != v.nextNumber || r.slots != SlotsOf(v.phase.needs) then v.(failed := true)
    else v.(phase := Reading(v.phase.needs, []), responses := v.responses[1..])
  }

  predicate CanRead(v: Worker) {
    v.phase.Reading? && |v.phase.evaluations| < |v.phase.needs|
  }

  function ReadOne(v: Worker): Worker
    requires CanRead(v)
  {
    var slot := v.phase.needs[|v.phase.evaluations|].slot;
    if slot >= |v.outputs| then v.(failed := true)
    else v.(phase := Reading(v.phase.needs, v.phase.evaluations + [v.outputs[slot]]))
  }

  predicate CanRelease(v: Worker) {
    v.phase.Reading? && |v.phase.evaluations| >= |v.phase.needs|
  }

  function Release(v: Worker): Worker
    requires CanRelease(v)
  {
    v.(phase := Resuming(v.phase.needs, v.phase.evaluations, 0),
       leased := v.leased - (set i | 0 <= i < |v.phase.needs| :: v.phase.needs[i].slot))
  }

  predicate CanResume(v: Worker) {
    v.phase.Resuming? && v.phase.resumed < |v.phase.needs| && v.phase.resumed < |v.phase.evaluations|
  }

  function ResumeOne(m: Machine, v: Worker): Worker
    requires CanResume(v)
  {
    var k := v.phase.resumed;
    var slot := v.phase.needs[k].slot;
    if slot >= |v.seats| || v.seats[slot].None? then v.(failed := true)
    else
      var seat := v.seats[slot].value;
      v.(seats := v.seats[slot := Some(Seat(seat.id, m.resume(seat.game, v.phase.evaluations[k])))],
         phase := Resuming(v.phase.needs, v.phase.evaluations, k + 1))
  }

  predicate AllResumed(v: Worker) {
    v.phase.Resuming? && !CanResume(v)
  }

  function NextRound(v: Worker): Worker {
    v.(phase := Filling)
  }

  // ----- broker and dispatcher steps -----

  function Rows(batch: seq<Request>): nat {
    if batch == [] then 0 else Rows(batch[..|batch| - 1]) + |batch[|batch| - 1].slots|
  }

  /** The shared rows of a batch in dispatch order. */
  function Flat(batch: seq<Request>): (rows: seq<(nat, nat)>)
    ensures |rows| == Rows(batch)
  {
    if batch == [] then []
    else
      var last := batch[|batch| - 1];
      Flat(batch[..|batch| - 1]) + seq(|last.slots|, i requires 0 <= i < |last.slots| => (last.worker, last.slots[i]))
  }

  /** The longest prefix within the cap, and never an empty one. */
  predicate IsBatch(pending: seq<Request>, cap: nat, k: nat) {
    && 0 < k <= |pending| && Rows(pending[..k]) <= cap
    && (k == |pending| || Rows(pending[..k + 1]) > cap)
  }

  /** One row of a shared tensor. */
  function InputAt(s: State, at: (nat, nat)): Option<Row> {
    if at.0 < |s.workers| && at.1 < |s.workers[at.0].inputs| then Some(s.workers[at.0].inputs[at.1]) else None
  }

  // ----- all steps -----

  datatype Step =
    | Take(w: nat) | Begin(w: nat) | StopWorker(w: nat) | Advance(w: nat) | End(w: nat)
    | Write(w: nat) | Submit(w: nat) | Accept(w: nat) | Read(w: nat) | Free(w: nat) | Resume(w: nat) | Next(w: nat)
    | Ingress(w: nat) | TakeBatch(k: nat) | Gather | Infer | Scatter | Finish | Respond | Rest
    | Handle(w: nat)

  predicate WorkerStep(step: Step) {
    step.Take? || step.Begin? || step.StopWorker? || step.Advance? || step.End? || step.Write? || step.Submit? ||
    step.Accept? || step.Read? || step.Free? || step.Resume? || step.Next?
  }

  predicate WorkerEnabled(v: Worker, step: Step)
    requires WorkerStep(step)
  {
    match step
    case Take(_) => CanTake(v)
    case Begin(_) => CanBegin(v)
    case StopWorker(_) => CanStop(v)
    case Advance(_) => CanAdvance(v)
    case End(_) => AllAdvanced(v)
    case Write(_) => CanWrite(v)
    case Submit(_) => CanSend(v)
    case Accept(_) => CanReceive(v)
    case Read(_) => CanRead(v)
    case Free(_) => CanRelease(v)
    case Resume(_) => CanResume(v)
    case Next(_) => AllResumed(v)
  }

  ghost function WorkerNext(m: Machine, v: Worker, step: Step): Worker
    requires WorkerStep(step) && WorkerEnabled(v, step)
  {
    match step
    case Take(_) => TakeTask(m, v)
    case Begin(_) => BeginRound(v)
    case StopWorker(_) => Stop(v)
    case Advance(_) => AdvanceOne(m, v)
    case End(_) => EndRound(v)
    case Write(_) => WriteOne(v)
    case Submit(w) => Send(w, v)
    case Accept(_) => Receive(v)
    case Read(_) => ReadOne(v)
    case Free(_) => Release(v)
    case Resume(_) => ResumeOne(m, v)
    case Next(_) => NextRound(v)
  }

  /** The whole system stands still once a worker failed or the parent raised. A fatal broker has dropped a request but
      goes on until the parent looks at it. */
  predicate Broken(s: State) {
    s.error || exists w :: 0 <= w < |s.workers| && s.workers[w].failed
  }

  predicate Enabled(c: Config, s: State, step: Step) {
    && !Broken(s)
    && (WorkerStep(step) ==> step.w < |s.workers| && WorkerEnabled(s.workers[step.w], step))
    && (step.Ingress? ==> step.w < |s.workers| && s.workers[step.w].outbox != [])
    && (step.TakeBatch? ==> s.broker.dispatch.Idle? && IsBatch(s.broker.pending, c.batchCap, step.k))
    && (step.Gather? ==> s.broker.dispatch.Gathering? && |s.broker.dispatch.staging| < Rows(s.broker.dispatch.batch))
    && (step.Infer? ==> s.broker.dispatch.Gathering? && |s.broker.dispatch.staging| >= Rows(s.broker.dispatch.batch))
    && (step.Scatter? ==> s.broker.dispatch.Scattering? && s.broker.dispatch.offset < Rows(s.broker.dispatch.batch))
    && (step.Finish? ==> s.broker.dispatch.Scattering? && s.broker.dispatch.offset >= Rows(s.broker.dispatch.batch))
    && (step.Respond? ==> s.broker.dispatch.Responding? && s.broker.dispatch.batch != [])
    && (step.Rest? ==> s.broker.dispatch.Responding? && s.broker.dispatch.batch == [])
    && (step.Handle? ==> step.w < |s.workers| && s.workers[step.w].reports != [] && |s.completed| < |c.ids|)
  }

  function Fatal(s: State): State { s.(broker := s.broker.(fatal := true)) }

  function DoIngress(c: Config, s: State, w: nat): State
    requires w < |s.workers| && s.workers[w].outbox != []
  {
    var v := s.workers[w];
    var r := v.outbox[0];
    var taken := s.(workers := s.workers[w := v.(outbox := v.outbox[1..])]);
    if |r.slots| == 0 || |r.slots| > c.batchCap then Fatal(taken)
    else taken.(broker := s.broker.(pending := s.broker.pending + [r]))
  }

  function DoTakeBatch(s: State, k: nat): State
    requires k <= |s.broker.pending|
  {
    s.(broker := s.broker.(pending := s.broker.pending[k..], dispatch := Gathering(s.broker.pending[..k], [])))
  }

  function DoGather(s: State): State
    requires s.broker.dispatch.Gathering? && |s.broker.dispatch.staging| < Rows(s.broker.dispatch.batch)
  {
    var d := s.broker.dispatch;
    match InputAt(s, Flat(d.batch)[|d.staging|])
    case None => Fatal(s)
    case Some(row) => s.(broker := s.broker.(dispatch := d.(staging := d.staging + [row])))
  }

  function DoInfer(m: Machine, s: State): State
    requires s.broker.dispatch.Gathering?
  {
    var d := s.broker.dispatch;
    s.(broker := s.broker.(dispatch := Scattering(d.batch, seq(|d.staging|, k requires 0 <= k < |d.staging| => m.infer(d.staging[k])), 0)))
  }

  function DoScatter(s: State): State
    requires s.broker.dispatch.Scattering? && s.broker.dispatch.offset < Rows(s.broker.dispatch.batch)
  {
    var d := s.broker.dispatch;
    var (w, slot) := Flat(d.batch)[d.offset];
    if d.offset >= |d.results| || w >= |s.workers| || slot >= |s.workers[w].outputs| then Fatal(s)
    else
      var v := s.workers[w];
      s.(workers := s.workers[w := v.(outputs := v.outputs[slot := d.results[d.offset]])],
         broker := s.broker.(dispatch := d.(offset := d.offset + 1)))
  }

  function DoRespond(s: State): State
    requires s.broker.dispatch.Responding? && s.broker.dispatch.batch != []
  {
    var batch := s.broker.dispatch.batch;
    var r := batch[0];
    if r.worker >= |s.workers| then Fatal(s)
    else
      var v := s.workers[r.worker];
      s.(workers := s.workers[r.worker := v.(responses := v.responses + [Response(r.number, r.slots)])],
         broker := s.broker.(dispatch := Responding(batch[1..])))
  }

  function AddStops(workers: seq<Worker>): (r: seq<Worker>)
    ensures |r| == |workers|
  {
    seq(|workers|, w requires 0 <= w < |workers| => workers[w].(tasks := workers[w].tasks + [TaskStop]))
  }

  /** The parent records a completion, hands the worker its next game, and stops everybody after the last one. */
  function DoHandle(c: Config, s: State, w: nat): State
    requires w < |s.workers| && s.workers[w].reports != []
  {
    var v := s.workers[w];
    var report := v.reports[0];
    if report.id in s.completed then s.(error := true)
    else
      var completed := s.completed[report.id := report.record];
      var heard := v.(reports := v.reports[1..]);
      var next := if s.pending == [] then heard else heard.(tasks := v.tasks + [Play(s.pending[0])]);
      var workers := s.workers[w := next];
      s.(completed := completed,
         pending := if s.pending == [] then [] else s.pending[1..],
         workers := if |completed| == |c.ids| then AddStops(workers) else workers,
         stopsSent := s.stopsSent || |completed| == |c.ids|)
  }

  ghost function Successor(c: Config, m: Machine, s: State, step: Step): State
    requires Enabled(c, s, step)
  {
    if WorkerStep(step) then s.(workers := s.workers[step.w := WorkerNext(m, s.workers[step.w], step)])
    else match step
      case Ingress(w) => DoIngress(c, s, w)
      case TakeBatch(k) => DoTakeBatch(s, k)
      case Gather => DoGather(s)
      case Infer => DoInfer(m, s)
      case Scatter => DoScatter(s)
      case Finish => s.(broker := s.broker.(dispatch := Responding(s.broker.dispatch.batch)))
      case Respond => DoRespond(s)
      case Rest => s.(broker := s.broker.(dispatch := Idle))
      case Handle(w) => DoHandle(c, s, w)
  }

  // ----- runs -----

  /** Before any process started: each worker's queue holds its share of the ids in order. */
  ghost predicate Start(c: Config, s: State) {
    && Count(c) > 0 && |s.workers| == Count(c) && Target(c) <= |c.ids|
    && s.broker == Broker([], Idle, false)
    && s.completed == map[] && !s.stopsSent && !s.error
    && s.pending == c.ids[Target(c)..]
    && (forall w :: 0 <= w < |s.workers| ==> FreshWorker(c, s.workers[w], w))
  }

  /** The ids dealt to the workers before this one. */
  function DealtBefore(c: Config, w: nat): nat
    requires Count(c) > 0
  {
    if w == 0 then 0 else DealtBefore(c, w - 1) + Share(c, w - 1)
  }

  ghost predicate FreshWorker(c: Config, v: Worker, w: nat)
    requires Count(c) > 0
  {
    && v.share == Share(c, w) && |v.seats| == |v.inputs| == |v.outputs| == Slots(c)
    && |v.tasks| == v.share && DealtBefore(c, w) + v.share <= |c.ids|
    && (forall i :: 0 <= i < v.share ==> v.tasks[i] == Play(c.ids[DealtBefore(c, w) + i]))
    && (forall k :: 0 <= k < |v.seats| ==> v.seats[k].None?)
    && !v.stopSeen && v.phase.Filling? && v.leased == {} && v.outbox == [] && v.responses == [] && v.reports == [] && !v.failed
  }

  ghost predicate StepTo(c: Config, m: Machine, s: State, s': State) {
    exists step :: Enabled(c, s, step) && s' == Successor(c, m, s, step)
  }

  /** A run of the engine: any interleaving of enabled steps. */
  ghost predicate IsRun(c: Config, m: Machine, run: seq<State>) {
    && run != [] && Start(c, run[0])
    && forall i :: 0 <= i < |run| - 1 ==> StepTo(c, m, run[i], run[i + 1])
  }
}
