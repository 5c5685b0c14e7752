/** The whole engine: the invariant of every interleaving, and what it means for the records returned. */
module SelfPlayEngine {
  import opened Options
  import opened SelfPlayMachine
  import opened SelfPlayProtocol
  import opened SelfPlayWorker
  import opened SelfPlayBroker

  // ----- the split of the games over the workers -----

  lemma TargetFits(c: Config)
    requires Accepted(c)
    ensures Count(c) > 0 && 0 < Target(c) <= |c.ids|
  {
    AtLeastOne(Count(c), c.capacity);
  }

  lemma AtLeastOne(a: nat, b: nat)
    ensures a > 0 && b > 0 ==> a * b > 0
  {
  }

  /** The shares before worker w, in closed form. */
  lemma {:induction false} DealtIs(c: Config, w: nat)
    requires Count(c) > 0
    ensures DealtBefore(c, w) == w * (Target(c) / Count(c)) + Least(w, Target(c) % Count(c))
  {
    hide Count, Target;
    if w > 0 {
      DealtIs(c, w - 1);
      OneMoreShare(w, Target(c) / Count(c));
    }
  }

  lemma OneMoreShare(w: nat, q: nat)
    requires w > 0
    ensures w * q == (w - 1) * q + q
  {
  }

  /** The shares add up to the target, differ by at most one, and the first is the largest. */
  lemma SharesSum(c: Config, w: nat)
    requires Count(c) > 0
    ensures DealtBefore(c, Count(c)) == Target(c)
    ensures Share(c, w) <= Slots(c) <= Share(c, w) + 1
  {
    hide Count, Target;
    DealtIs(c, Count(c));
    DivMod(Target(c), Count(c));
  }

  lemma DivMod(a: nat, b: nat)
    requires b > 0
    ensures a == b * (a / b) + a % b && 0 <= a % b < b
  {
  }

  lemma {:induction false} DealtMonotone(c: Config, w: nat, u: nat)
    requires Count(c) > 0 && w <= u
    ensures DealtBefore(c, w) <= DealtBefore(c, u)
    decreases u - w
  {
    if w < u {
      DealtMonotone(c, w, u - 1);
    }
  }

  // ----- ids over all workers -----

  function HeldAll(workers: seq<Worker>): multiset<Id> {
    if workers == [] then multiset{} else HeldAll(workers[..|workers| - 1]) + Held(workers[|workers| - 1])
  }

  lemma {:induction false} HeldAllUpdate(workers: seq<Worker>, w: nat, v: Worker)
    requires w < |workers|
    ensures HeldAll(workers[w := v]) + Held(workers[w]) == HeldAll(workers) + Held(v)
  {
    hide Held;
    var last := |workers| - 1;
    if w < last {
      assert workers[w := v][..last] == workers[..last][w := v];
      HeldAllUpdate(workers[..last], w, v);
      Shifted(HeldAll(workers[..last][w := v]), Held(workers[w]), HeldAll(workers[..last]), Held(v), Held(workers[last]));
    } else {
      assert workers[w := v][..last] == workers[..last];
    }
  }

  lemma {:induction false} HeldAllSame(workers: seq<Worker>, workers': seq<Worker>)
    requires |workers'| == |workers| && forall w :: 0 <= w < |workers| ==> Held(workers'[w]) == Held(workers[w])
    ensures HeldAll(workers') == HeldAll(workers)
  {
    hide Held;
    if workers != [] {
      HeldAllSame(workers[..|workers| - 1], workers'[..|workers| - 1]);
    }
  }

  lemma {:induction false} HeldWithin(workers: seq<Worker>, w: nat)
    requires w < |workers|
    ensures Held(workers[w]) <= HeldAll(workers)
  {
    hide Held;
    if w < |workers| - 1 {
      HeldWithin(workers[..|workers| - 1], w);
    }
  }

  lemma {:induction false} SomebodyHolds(workers: seq<Worker>) returns (w: nat)
    requires HeldAll(workers) != multiset{}
    ensures w < |workers| && Held(workers[w]) != multiset{}
  {
    hide Held;
    var last := |workers| - 1;
    if Held(workers[last]) != multiset{} {
      w := last;
    } else {
      w := SomebodyHolds(workers[..last]);
    }
  }

  // ----- the invariant -----

  ghost predicate AllWorkersOk(c: Config, m: Machine, workers: seq<Worker>)
    requires Count(c) > 0
  {
    |workers| == Count(c) && forall w :: 0 <= w < |workers| ==> WorkerOk(c, m, w, workers[w])
  }

  /** Every id is in exactly one place: pending, with one worker (queued, active or reported), or completed. */
  ghost predicate Accounted(c: Config, s: State) {
    multiset(s.pending) + HeldAll(s.workers) + multiset(s.completed.Keys) == multiset(c.ids)
  }

  /** While games are pending every worker is loaded to its share. */
  ghost predicate FullyLoaded(s: State) {
    s.pending != [] ==> forall w :: 0 <= w < |s.workers| ==> |Held(s.workers[w])| == s.workers[w].share
  }

  ghost predicate StopsInOrder(c: Config, s: State) {
    && (forall w :: 0 <= w < |s.workers| && (TaskStop in s.workers[w].tasks || s.workers[w].stopSeen) ==> s.stopsSent)
    && (s.stopsSent ==> |s.completed| == |c.ids|)
  }

  ghost predicate ResultsSolo(m: Machine, completed: map<Id, Record>) {
    forall id :: id in completed ==> IsSoloRecord(m, id, completed[id])
  }

  ghost predicate Oversized(c: Config) {
    Count(c) > 0 && exists w :: 0 <= w < Count(c) && Share(c, w) > c.batchCap
  }

  /** No request is lost between a worker and the broker. */
  ghost predicate Tracked(s: State) {
    forall w :: 0 <= w < |s.workers| && InFlight(s.workers[w]) ==> AnswerDue(s.broker, w)
  }

  predicate AnswerDue(b: Broker, w: nat) {
    exists i :: 0 <= i < |Flight(b)| && Flight(b)[i].worker == w
  }

  /** Requests that passed ingress fit the batch cap. */
  predicate Admitted(c: Config, pending: seq<Request>) {
    forall r :: r in pending ==> 0 < |r.slots| <= c.batchCap
  }

  ghost predicate Inv(c: Config, m: Machine, s: State) {
    && Accepted(c) && Count(c) > 0 && AllWorkersOk(c, m, s.workers) && BrokerOk(m, s)
    && Accounted(c, s) && FullyLoaded(s) && StopsInOrder(c, s) && ResultsSolo(m, s.completed)
    && !s.error && (s.broker.fatal ==> Oversized(c)) && (!s.broker.fatal ==> Tracked(s))
    && Admitted(c, s.broker.pending)
  }

  // ----- worker steps -----

  lemma WorkerStepInv(c: Config, m: Machine, s: State, step: Step)
    requires Inv(c, m, s) && WorkerStep(step) && Enabled(c, s, step)
    ensures Inv(c, m, Successor(c, m, s, step))
  {
    hide WorkerOk, Held, WorkerNext, WorkerEnabled, Flight, DispatchOk, HeldAll, Share, Count, IsSoloRecord, FlightOk, Broken;
    var w := step.w;
    var v := s.workers[w];
    var v' := WorkerNext(m, v, step);
    var s' := Successor(c, m, s, step);
    WorkerStepKeeps(c, m, w, v, step);
    HeldAllUpdate(s.workers, w, v');
    Cancels(HeldAll(s'.workers), HeldAll(s.workers), Held(v));
    NotInFlight(s.workers, Flight(s.broker), w);
    FlightUndisturbedBy(s, s', w);
    BrokerFrame(m, s, s');
    StepStops(c, s, s', w);
  }

  lemma StepStops(c: Config, s: State, s': State, w: nat)
    requires StopsInOrder(c, s) && w < |s.workers| == |s'.workers| && s'.workers == s.workers[w := s'.workers[w]]
    requires KeepsAccount(s.workers[w], s'.workers[w]) && s'.stopsSent == s.stopsSent && s'.completed == s.completed
    ensures StopsInOrder(c, s')
  {
    hide Held;
  }

  lemma NotInFlight(workers: seq<Worker>, flight: seq<Request>, w: nat)
    requires FlightOk(workers, flight) && w < |workers| && !InFlight(workers[w])
    ensures forall i :: 0 <= i < |flight| ==> flight[i].worker != w
  {
    forall i | 0 <= i < |flight| ensures flight[i].worker != w {
      assert RequestOk(workers, flight[i]);
    }
  }

  lemma FlightUndisturbedBy(s: State, s': State, w: nat)
    requires FlightOk(s.workers, Flight(s.broker)) && w < |s.workers| && !InFlight(s.workers[w])
    requires |s'.workers| == |s.workers| && s'.workers == s.workers[w := s'.workers[w]]
    ensures Undisturbed(s, s', Flight(s.broker))
  {
    NotInFlight(s.workers, Flight(s.broker), w);
    FlightUndisturbed(s, s', w, Flight(s.broker));
  }

  // ----- broker steps -----

  /** Nothing the parent or the accounts look at has changed. */
  ghost predicate AccountsSame(s: State, s': State) {
    && |s'.workers| == |s.workers| && s'.pending == s.pending && s'.completed == s.completed && s'.stopsSent == s.stopsSent && s'.error == s.error
    && forall w :: 0 <= w < |s.workers| ==> SameAccount(s.workers[w], s'.workers[w])
  }

  ghost predicate SameAccount(v: Worker, v': Worker) {
    Held(v') == Held(v) && v'.share == v.share && v'.tasks == v.tasks && v'.stopSeen == v.stopSeen
  }

  lemma SameAccounts(c: Config, m: Machine, s: State, s': State)
    requires Inv(c, m, s) && AccountsSame(s, s')
    ensures Accounted(c, s') && FullyLoaded(s') && StopsInOrder(c, s') && ResultsSolo(m, s'.completed) && !s'.error
  {
    hide WorkerOk, Held, HeldAll, BrokerOk, IsSoloRecord;
    forall w | 0 <= w < |s.workers| ensures Held(s'.workers[w]) == Held(s.workers[w]) {
      assert SameAccount(s.workers[w], s'.workers[w]);
    }
    HeldAllSame(s.workers, s'.workers);
    forall w | 0 <= w < |s.workers| && (TaskStop in s'.workers[w].tasks || s'.workers[w].stopSeen) ensures s'.stopsSent {
      assert SameAccount(s.workers[w], s'.workers[w]);
    }
    if s'.pending != [] {
      forall w | 0 <= w < |s.workers| ensures |Held(s'.workers[w])| == s'.workers[w].share {
        assert SameAccount(s.workers[w], s'.workers[w]);
      }
    }
  }

  lemma IngressInv(c: Config, m: Machine, s: State, w: nat)
    requires Inv(c, m, s) && w < |s.workers| && s.workers[w].outbox != []
    ensures Inv(c, m, DoIngress(c, s, w))
  {
    hide WorkerOk, Held, HeldAll, BrokerOk, Flight, Share, Count, ResultsSolo, Accounted, FullyLoaded, StopsInOrder, Accepted;
    var s' := DoIngress(c, s, w);
    assert WorkerOk(c, m, w, s.workers[w]);
    SubmittedKeeps(c, m, s, w);
    IngressKeeps(c, m, s, w);
    SameAccounts(c, m, s, s');
    if s'.broker.fatal {
      assert s.broker.fatal || Share(c, w) > c.batchCap;
    } else {
      IngressTracked(s, s', w);
    }
  }

  lemma IngressTracked(s: State, s': State, w: nat)
    requires Tracked(s) && w < |s.workers| && s.workers[w].outbox != [] && s'.workers == Submitted(s, w).workers
    requires Flight(s'.broker) == Flight(s.broker) + [s.workers[w].outbox[0]] && s.workers[w].outbox[0].worker == w
    ensures Tracked(s')
  {
    hide Flight;
    var flight := Flight(s.broker);
    forall u | 0 <= u < |s'.workers| && InFlight(s'.workers[u]) ensures AnswerDue(s'.broker, u) {
      if u == w {
        assert Flight(s'.broker)[|flight|].worker == w;
      } else {
        assert AnswerDue(s.broker, u);
        var i :| 0 <= i < |flight| && flight[i].worker == u;
        assert Flight(s'.broker)[i].worker == u;
      }
    }
  }

  lemma SameFlightInv(c: Config, m: Machine, s: State, s': State)
    requires Inv(c, m, s) && BrokerOk(m, s') && s'.workers == s.workers && Flight(s'.broker) == Flight(s.broker)
    requires s'.broker.fatal == s.broker.fatal && forall r :: r in s'.broker.pending ==> r in s.broker.pending
    requires s'.pending == s.pending && s'.completed == s.completed && s'.stopsSent == s.stopsSent && s'.error == s.error
    ensures Inv(c, m, s')
  {
    hide WorkerOk, Held, HeldAll, BrokerOk, Flight, ResultsSolo;
    forall u | 0 <= u < |s'.workers| && InFlight(s'.workers[u]) && !s'.broker.fatal ensures AnswerDue(s'.broker, u) {
      assert AnswerDue(s.broker, u);
    }
  }

  lemma BrokerStepInv(c: Config, m: Machine, s: State, step: Step)
    requires Inv(c, m, s) && Enabled(c, s, step) && (step.TakeBatch? || step.Gather? || step.Infer? || step.Finish? || step.Rest?)
    ensures Inv(c, m, Successor(c, m, s, step))
  {
    hide WorkerOk, Inv, DoGather, DoInfer, Broken, IsBatch, Flight, DispatchOk, FlightOk, Rows;
    InvParts(c, m, s);
    match step {
      case TakeBatch(k) => TakeBatchKeeps(c, m, s, k);
      case Gather => GatherKeeps(c, m, s); GatherOnly(s);
      case Infer => InferKeeps(m, s); InferOnly(m, s);
      case Finish => FinishKeeps(m, s); FinishFlight(s);
      case Rest => RestKeeps(m, s);
    }
    SameFlightInv(c, m, s, Successor(c, m, s, step));
  }

  lemma InvParts(c: Config, m: Machine, s: State)
    requires Inv(c, m, s)
    ensures Count(c) > 0 && |s.workers| == Count(c) && BrokerOk(m, s) && Accepted(c) && !s.error
    ensures forall w :: 0 <= w < |s.workers| ==> WorkerOk(c, m, w, s.workers[w])
    ensures (s.broker.fatal ==> Oversized(c)) && (!s.broker.fatal ==> Tracked(s)) && Admitted(c, s.broker.pending)
  {
    hide WorkerOk, BrokerOk;
  }

  predicate OnlyBroker(s: State, s': State) {
    s' == s.(broker := s'.broker)
  }

  lemma GatherOnly(s: State)
    requires s.broker.dispatch.Gathering? && |s.broker.dispatch.staging| < Rows(s.broker.dispatch.batch)
    ensures OnlyBroker(s, DoGather(s)) && DoGather(s).broker.pending == s.broker.pending
  {
  }

  lemma InferOnly(m: Machine, s: State)
    requires s.broker.dispatch.Gathering?
    ensures OnlyBroker(s, DoInfer(m, s)) && DoInfer(m, s).broker.fatal == s.broker.fatal && DoInfer(m, s).broker.pending == s.broker.pending
  {
  }

  lemma FinishFlight(s: State)
    requires s.broker.dispatch.Scattering?
    ensures Flight(s.broker.(dispatch := Responding(s.broker.dispatch.batch))) == Flight(s.broker)
  {
  }

  lemma RestKeeps(m: Machine, s: State)
    requires BrokerOk(m, s) && s.broker.dispatch.Responding? && s.broker.dispatch.batch == []
    ensures BrokerOk(m, s.(broker := s.broker.(dispatch := Idle))) && Flight(s.broker.(dispatch := Idle)) == Flight(s.broker)
  {
    hide RequestOk;
    assert Flight(s.broker) == [] + s.broker.pending;
    assert Flight(s.broker.(dispatch := Idle)) == [] + s.broker.pending;
  }

  lemma ScatterInv(c: Config, m: Machine, s: State)
    requires Inv(c, m, s) && s.broker.dispatch.Scattering? && s.broker.dispatch.offset < Rows(s.broker.dispatch.batch)
    ensures Inv(c, m, DoScatter(s))
  {
    hide WorkerOk, HeldAll, BrokerOk, Flight, Share, Count, ResultsSolo, Accounted, FullyLoaded, StopsInOrder, Accepted, Rows, DoScatter, Held, TaskIds, SeatIds, ReportIds;
    InvParts(c, m, s);
    ScatterKeeps(c, m, s);
    ScatterOnly(s);
    var s' := DoScatter(s);
    forall w | 0 <= w < |s.workers| ensures SameAccount(s.workers[w], s'.workers[w]) {
      OutputsNotHeld(s.workers[w], s'.workers[w]);
    }
    SameAccounts(c, m, s, s');
    forall u | 0 <= u < |s'.workers| && InFlight(s'.workers[u]) && !s'.broker.fatal ensures AnswerDue(s'.broker, u) {
      assert SameButOutputs(s.workers[u], s'.workers[u]);
      assert AnswerDue(s.broker, u);
    }
  }

  lemma OutputsNotHeld(v: Worker, v': Worker)
    requires SameButOutputs(v, v')
    ensures SameAccount(v, v')
  {
  }

  lemma ScatterOnly(s: State)
    requires s.broker.dispatch.Scattering? && s.broker.dispatch.offset < Rows(s.broker.dispatch.batch)
    ensures DoScatter(s) == s.(workers := DoScatter(s).workers, broker := DoScatter(s).broker)
    ensures DoScatter(s).broker.pending == s.broker.pending
  {
    hide Rows, Flat;
  }

  lemma RespondInv(c: Config, m: Machine, s: State)
    requires Inv(c, m, s) && s.broker.dispatch.Responding? && s.broker.dispatch.batch != []
    ensures Inv(c, m, DoRespond(s))
  {
    hide WorkerOk, HeldAll, BrokerOk, Flight, Share, Count, ResultsSolo, Accounted, FullyLoaded, StopsInOrder, Accepted, DoRespond, Held;
    InvParts(c, m, s);
    RespondKeeps(c, m, s);
    RespondOnly(s);
    var s' := DoRespond(s);
    var w := s.broker.dispatch.batch[0].worker;
    ResponsesNotHeld(s.workers[w], s'.workers[w]);
    assert AccountsSame(s, s');
    SameAccounts(c, m, s, s');
    forall u | 0 <= u < |s'.workers| && InFlight(s'.workers[u]) && !s'.broker.fatal ensures AnswerDue(s'.broker, u) {
      assert u != w && AnswerDue(s.broker, u);
      var i :| 0 <= i < |Flight(s.broker)| && Flight(s.broker)[i].worker == u;
      assert Flight(s'.broker)[i - 1].worker == u;
    }
  }

  lemma ResponsesNotHeld(v: Worker, v': Worker)
    requires SameButResponses(v, v')
    ensures SameAccount(v, v')
  {
  }

  lemma RespondOnly(s: State)
    requires s.broker.dispatch.Responding? && s.broker.dispatch.batch != []
    ensures DoRespond(s) == s.(workers := DoRespond(s).workers, broker := DoRespond(s).broker)
    ensures DoRespond(s).broker.pending == s.broker.pending
  {
  }

  // ----- the parent -----

  lemma {:induction false} DistinctOnce(ids: seq<Id>, id: Id)
    requires forall i, j :: 0 <= i < j < |ids| ==> ids[i] != ids[j]
    ensures multiset(ids)[id] <= 1
  {
    if ids != [] {
      var last := |ids| - 1;
      DistinctOnce(ids[..last], id);
      assert ids == ids[..last] + [ids[last]];
      assert ids[last] !in ids[..last];
    }
  }

  /** A reported game was not completed before: the duplicate check never fires. */
  lemma ReportIsNew(c: Config, s: State, w: nat)
    requires Accepted(c) && Accounted(c, s) && w < |s.workers| && s.workers[w].reports != []
    ensures s.workers[w].reports[0].id !in s.completed
  {
    hide HeldAll, TaskIds, SeatIds, ReportIds;
    var id := s.workers[w].reports[0].id;
    ReportIdsTail(s.workers[w].reports);
    HeldWithin(s.workers, w);
    DistinctOnce(c.ids, id);
    assert HeldAll(s.workers)[id] >= 1;
    assert (multiset(s.pending) + HeldAll(s.workers) + multiset(s.completed.Keys))[id] <= 1;
    assert multiset(s.completed.Keys)[id] == 0;
  }

  /** The worker after its first report was handled. */
  function Heard(s: State, w: nat): Worker
    requires w < |s.workers| && s.workers[w].reports != []
  {
    var v := s.workers[w];
    var heard := v.(reports := v.reports[1..]);
    if s.pending == [] then heard else heard.(tasks := v.tasks + [Play(s.pending[0])])
  }

  lemma HeardAccount(s: State, w: nat)
    requires w < |s.workers| && s.workers[w].reports != []
    ensures var v := s.workers[w];
      Held(v) + (if s.pending == [] then multiset{} else multiset{s.pending[0]}) == Held(Heard(s, w)) + multiset{v.reports[0].id}
  {
    hide TaskIds, SeatIds, ReportIds;
    var v := s.workers[w];
    ReportIdsTail(v.reports);
    if s.pending != [] {
      TaskIdsPush(v.tasks, Play(s.pending[0]));
    }
  }

  lemma HeardOk(c: Config, m: Machine, s: State, w: nat)
    requires Count(c) > 0 && w < |s.workers| && s.workers[w].reports != [] && WorkerOk(c, m, w, s.workers[w])
    ensures WorkerOk(c, m, w, Heard(s, w)) && SameToBroker(s.workers[w], Heard(s, w))
    ensures s.pending != [] ==> |Held(Heard(s, w))| == |Held(s.workers[w])|
    ensures IsSoloRecord(m, s.workers[w].reports[0].id, s.workers[w].reports[0].record)
  {
    hide OnSolo, Suspended, IsSoloRecord, Share, Slots, Count, Held, PhaseOk;
    var v := s.workers[w];
    HeardAccount(s, w);
    HeardCount(s, w);
    PhaseIgnoresQueues(m, w, v, Heard(s, w));
  }

  lemma HeardCount(s: State, w: nat)
    requires w < |s.workers| && s.workers[w].reports != []
    ensures |Held(Heard(s, w))| + 1 == |Held(s.workers[w])| + if s.pending == [] then 0 else 1
  {
    hide Held, Heard;
    HeardAccount(s, w);
    var v := s.workers[w];
    assert |Held(Heard(s, w)) + multiset{v.reports[0].id}| == |Held(Heard(s, w))| + 1;
  }

  lemma PhaseIgnoresQueues(m: Machine, w: nat, v: Worker, v': Worker)
    requires PhaseOk(m, w, v) && v' == v.(tasks := v'.tasks, reports := v'.reports)
    ensures PhaseOk(m, w, v')
  {
    hide OnSolo, Suspended, SlotsOf, Occupied;
  }

  function StoppedIf(full: bool, workers: seq<Worker>): (r: seq<Worker>)
    ensures |r| == |workers|
  {
    if full then AddStops(workers) else workers
  }

  lemma StopsAreNoGames(c: Config, m: Machine, w: nat, v: Worker)
    requires Count(c) > 0 && WorkerOk(c, m, w, v)
    ensures var v' := v.(tasks := v.tasks + [TaskStop]);
      WorkerOk(c, m, w, v') && Held(v') == Held(v) && SameToBroker(v, v')
  {
    hide OnSolo, Suspended, IsSoloRecord, Share, Slots, Count, PhaseOk, TaskIds, SeatIds, ReportIds;
    TaskIdsPush(v.tasks, TaskStop);
    PhaseIgnoresQueues(m, w, v, v.(tasks := v.tasks + [TaskStop]));
  }

  /** Handing out stops changes nobody's games. */
  lemma StopsKeep(c: Config, m: Machine, workers: seq<Worker>, full: bool)
    requires Count(c) > 0 && AllWorkersOk(c, m, workers)
    ensures AllWorkersOk(c, m, StoppedIf(full, workers)) && HeldAll(StoppedIf(full, workers)) == HeldAll(workers)
    ensures forall w :: 0 <= w < |workers| ==> SameToBroker(workers[w], StoppedIf(full, workers)[w]) && Held(StoppedIf(full, workers)[w]) == Held(workers[w])
                                               && StoppedIf(full, workers)[w].share == workers[w].share
    ensures !full ==> StoppedIf(full, workers) == workers
  {
    hide WorkerOk, Held, Count;
    var workers' := StoppedIf(full, workers);
    forall w | 0 <= w < |workers|
      ensures SameToBroker(workers[w], workers'[w]) && Held(workers'[w]) == Held(workers[w]) && WorkerOk(c, m, w, workers'[w])
    {
      StopsAreNoGames(c, m, w, workers[w]);
    }
    HeldAllSame(workers, workers');
  }

  lemma HandleIs(c: Config, s: State, w: nat)
    requires w < |s.workers| && s.workers[w].reports != [] && s.workers[w].reports[0].id !in s.completed
    ensures var report := s.workers[w].reports[0];
      var completed := s.completed[report.id := report.record];
      DoHandle(c, s, w) == s.(completed := completed, pending := if s.pending == [] then [] else s.pending[1..],
                              workers := StoppedIf(|completed| == |c.ids|, s.workers[w := Heard(s, w)]),
                              stopsSent := s.stopsSent || |completed| == |c.ids|)
  {
  }

  lemma HandleAccounts(c: Config, s: State, w: nat, s': State)
    requires Accounted(c, s) && w < |s.workers| && s.workers[w].reports != [] && s.workers[w].reports[0].id !in s.completed
    requires s'.completed == s.completed[s.workers[w].reports[0].id := s.workers[w].reports[0].record]
    requires s'.pending == (if s.pending == [] then [] else s.pending[1..])
    requires HeldAll(s'.workers) == HeldAll(s.workers[w := Heard(s, w)])
    ensures Accounted(c, s')
  {
    hide HeldAll, Held, Heard;
    var id := s.workers[w].reports[0].id;
    HeldAllUpdate(s.workers, w, Heard(s, w));
    HeardAccount(s, w);
    assert s'.completed.Keys == s.completed.Keys + {id};
    assert multiset(s'.completed.Keys) == multiset(s.completed.Keys) + multiset{id};
    var first: multiset<Id> := if s.pending == [] then multiset{} else multiset{s.pending[0]};
    if s.pending != [] {
      assert s.pending == [s.pending[0]] + s.pending[1..];
    }
    assert multiset(s.pending) == first + multiset(s'.pending);
    HandleBalance(multiset(s.pending), HeldAll(s.workers), multiset(s.completed.Keys), multiset(s'.pending), HeldAll(s'.workers),
                  first, Held(s.workers[w]), Held(Heard(s, w)), multiset{id});
  }

  lemma HandleBalance(p: multiset<Id>, h: multiset<Id>, k: multiset<Id>, p': multiset<Id>, h': multiset<Id>,
                      first: multiset<Id>, v: multiset<Id>, v': multiset<Id>, id: multiset<Id>)
    requires p == first + p' && h' + v == h + v' && v + first == v' + id
    ensures p' + h' + (k + id) == p + h + k
  {
    forall x ensures (p' + h' + (k + id))[x] == (p + h + k)[x] {
      assert p[x] == first[x] + p'[x];
      assert (h' + v)[x] == (h + v')[x];
      assert (v + first)[x] == (v' + id)[x];
    }
  }

  lemma HandleInv(c: Config, m: Machine, s: State, w: nat)
    requires Inv(c, m, s) && w < |s.workers| && s.workers[w].reports != [] && |s.completed| < |c.ids|
    ensures Inv(c, m, DoHandle(c, s, w))
  {
    hide WorkerOk, Held, HeldAll, DispatchOk, FlightOk, Share, Count, DoHandle, Heard, IsSoloRecord, Flight, Accepted;
    var s' := DoHandle(c, s, w);
    InvParts(c, m, s);
    ReportIsNew(c, s, w);
    HandleIs(c, s, w);
    HeardOk(c, m, s, w);
    var middle := s.workers[w := Heard(s, w)];
    var full := |s'.completed| == |c.ids|;
    StopsKeep(c, m, middle, full);
    HandleAccounts(c, s, w, s');
    assert Undisturbed(s, s', Flight(s.broker)) by { HandledUndisturbed(s, s', middle, w); }
    BrokerFrame(m, s, s');
    HandleLoads(s, s', middle, w);
    HandleStops(c, s, s', w, full);
    forall u | 0 <= u < |s'.workers| && InFlight(s'.workers[u]) && !s'.broker.fatal ensures AnswerDue(s'.broker, u) {
      assert SameToBroker(middle[u], s'.workers[u]) && SameToBroker(s.workers[u], middle[u]);
      assert AnswerDue(s.broker, u);
    }
  }

  lemma HandledUndisturbed(s: State, s': State, middle: seq<Worker>, w: nat)
    requires FlightOk(s.workers, Flight(s.broker)) && w < |s.workers| && |s'.workers| == |middle| == |s.workers| && s.workers[w].reports != []
    requires middle == s.workers[w := Heard(s, w)] && SameToBroker(s.workers[w], Heard(s, w))
    requires forall u :: 0 <= u < |middle| ==> SameToBroker(middle[u], s'.workers[u])
    ensures Undisturbed(s, s', Flight(s.broker))
  {
    hide Flight, Heard;
    var flight := Flight(s.broker);
    forall i | 0 <= i < |flight| ensures flight[i].worker < |s.workers| && SameToBroker(s.workers[flight[i].worker], s'.workers[flight[i].worker]) {
      assert RequestOk(s.workers, flight[i]);
      assert SameToBroker(middle[flight[i].worker], s'.workers[flight[i].worker]);
    }
  }

  lemma HandleLoads(s: State, s': State, middle: seq<Worker>, w: nat)
    requires FullyLoaded(s) && w < |s.workers| && |s'.workers| == |middle| == |s.workers| && s.workers[w].reports != []
    requires middle == s.workers[w := Heard(s, w)] && s'.pending == (if s.pending == [] then [] else s.pending[1..])
    requires s.pending != [] ==> |Held(Heard(s, w))| == |Held(s.workers[w])|
    requires forall u :: 0 <= u < |middle| ==> Held(s'.workers[u]) == Held(middle[u]) && s'.workers[u].share == middle[u].share
    ensures FullyLoaded(s')
  {
    hide Held;
    if s'.pending != [] {
      forall u | 0 <= u < |s'.workers| ensures |Held(s'.workers[u])| == s'.workers[u].share {
        assert Held(s'.workers[u]) == Held(middle[u]);
      }
    }
  }

  lemma HandleStops(c: Config, s: State, s': State, w: nat, full: bool)
    requires StopsInOrder(c, s) && |s.completed| < |c.ids| && w < |s.workers| && s.workers[w].reports != []
    requires s'.workers == StoppedIf(full, s.workers[w := Heard(s, w)]) && s'.stopsSent == (s.stopsSent || full)
    requires full == (|s'.completed| == |c.ids|)
    ensures StopsInOrder(c, s')
  {
    if !full {
      forall u | 0 <= u < |s'.workers| ensures TaskStop !in s'.workers[u].tasks && !s'.workers[u].stopSeen {
        assert TaskStop !in s.workers[u].tasks && !s.workers[u].stopSeen;
      }
    }
  }

  // ----- every step, every run -----

  lemma StepInv(c: Config, m: Machine, s: State, step: Step)
    requires Inv(c, m, s) && Enabled(c, s, step)
    ensures Inv(c, m, Successor(c, m, s, step))
  {
    hide Inv, IsBatch, Rows, WorkerNext, WorkerEnabled, DoIngress, DoTakeBatch, DoGather, DoInfer, DoScatter, DoRespond, DoHandle;
    if WorkerStep(step) {
      WorkerStepInv(c, m, s, step);
    } else {
      match step {
        case Ingress(w) => IngressInv(c, m, s, w);
        case Scatter => ScatterInv(c, m, s);
        case Respond => RespondInv(c, m, s);
        case Handle(w) => HandleInv(c, m, s, w);
        case _ => BrokerStepInv(c, m, s, step);
      }
    }
  }

  lemma {:induction false} FreshSeats(seats: seq<Option<Seat>>)
    requires forall k :: 0 <= k < |seats| ==> seats[k].None?
    ensures SeatIds(seats) == multiset{}
  {
    if seats != [] {
      FreshSeats(seats[..|seats| - 1]);
    }
  }

  lemma {:induction false} FreshTasks(ids: seq<Id>, tasks: seq<Task>)
    requires |tasks| == |ids| && forall i :: 0 <= i < |ids| ==> tasks[i] == Play(ids[i])
    ensures TaskIds(tasks) == multiset(ids) && TaskStop !in tasks
  {
    if ids != [] {
      var last := |ids| - 1;
      FreshTasks(ids[..last], tasks[..last]);
      assert ids == ids[..last] + [ids[last]];
    }
  }

  lemma FreshHeld(c: Config, v: Worker, w: nat)
    requires Count(c) > 0 && FreshWorker(c, v, w)
    ensures Held(v) == multiset(c.ids[DealtBefore(c, w)..DealtBefore(c, w) + Share(c, w)])
    ensures TaskStop !in v.tasks && !v.stopSeen
  {
    hide Count, Target, DealtBefore, SeatIds, TaskIds;
    var from := DealtBefore(c, w);
    FreshSeats(v.seats);
    FreshTasks(c.ids[from..from + v.share], v.tasks);
    assert ReportIds(v.reports) == multiset{};
    assert Held(v) == multiset(c.ids[from..from + v.share]);
  }

  lemma FreshWorkerOk(c: Config, m: Machine, v: Worker, w: nat)
    requires Count(c) > 0 && FreshWorker(c, v, w)
    ensures WorkerOk(c, m, w, v) && |Held(v)| == v.share && !InFlight(v)
  {
    hide Count, Target, DealtBefore, Held, Share, Slots;
    SharesSum(c, w);
    FreshHeld(c, v, w);
    SliceSize(c.ids, DealtBefore(c, w), Share(c, w));
  }

  lemma SliceSize(ids: seq<Id>, from: nat, size: nat)
    requires from + size <= |ids|
    ensures |multiset(ids[from..from + size])| == size
  {
  }

  lemma {:induction false} DealtIds(c: Config, workers: seq<Worker>)
    requires Count(c) > 0 && |workers| <= Count(c) && DealtBefore(c, |workers|) <= |c.ids|
    requires forall w :: 0 <= w < |workers| ==> FreshWorker(c, workers[w], w)
    ensures HeldAll(workers) == multiset(c.ids[..DealtBefore(c, |workers|)])
  {
    hide Count, Share, FreshWorker, Held;
    if workers != [] {
      var last := |workers| - 1;
      var from, to := DealtBefore(c, last), DealtBefore(c, |workers|);
      assert to == from + Share(c, last);
      DealtIds(c, workers[..last]);
      FreshHeld(c, workers[last], last);
      assert c.ids[..to] == c.ids[..from] + c.ids[from..to];
    }
  }

  /** The set-up before the processes start: shares, tensors with one row per slot, and the initial fill, which never
      takes from an empty queue. */
  method SetUp(c: Config, row: Row, evaluation: Evaluation) returns (s: State)
    requires Accepted(c)
    ensures Start(c, s)
  {
    hide Target, Count, Share, Slots, FreshWorker;
    TargetFits(c);
    SharesSum(c, 0);
    var pending: seq<Id>, workers: seq<Worker> := c.ids, [];
    for w := 0 to Count(c)
      invariant |workers| == w && DealtBefore(c, w) <= |c.ids| && pending == c.ids[DealtBefore(c, w)..]
      invariant forall u :: 0 <= u < w ==> FreshWorker(c, workers[u], u)
    {
      DealtMonotone(c, w + 1, Count(c));
      var tasks: seq<Task> := [];
      for k := 0 to Share(c, w)
        invariant |tasks| == k && pending == c.ids[DealtBefore(c, w) + k..]
        invariant forall i :: 0 <= i < k ==> tasks[i] == Play(c.ids[DealtBefore(c, w) + i])
      {
        tasks := tasks + [Play(pending[0])];
        pending := pending[1..];
      }
      var newWorker := Worker(Share(c, w), tasks, seq(Slots(c), _ => None), false, Filling, 0, {}, [], [],
                           seq(Slots(c), _ => row), seq(Slots(c), _ => evaluation), [], false);
      FreshIs(c, newWorker, w);
      workers := workers + [newWorker];
    }
    s := State(workers, Broker([], Idle, false), pending, map[], false, false);
  }

  lemma FreshIs(c: Config, v: Worker, w: nat)
    requires Count(c) > 0 && v.share == Share(c, w) && |v.seats| == |v.inputs| == |v.outputs| == Slots(c)
    requires |v.tasks| == v.share && DealtBefore(c, w) + v.share <= |c.ids|
    requires forall i :: 0 <= i < v.share ==> v.tasks[i] == Play(c.ids[DealtBefore(c, w) + i])
    requires forall k :: 0 <= k < |v.seats| ==> v.seats[k].None?
    requires !v.stopSeen && v.phase.Filling? && v.leased == {} && v.outbox == [] && v.responses == [] && v.reports == [] && !v.failed
    ensures FreshWorker(c, v, w)
  {
  }

  lemma StartInv(c: Config, m: Machine, s: State)
    requires Accepted(c) && Start(c, s)
    ensures Inv(c, m, s)
  {
    hide WorkerOk, Held, HeldAll, FreshWorker, Share, DealtBefore, Count, Target;
    SharesSum(c, 0);
    forall w | 0 <= w < |s.workers|
      ensures WorkerOk(c, m, w, s.workers[w]) && |Held(s.workers[w])| == s.workers[w].share
      ensures !InFlight(s.workers[w]) && TaskStop !in s.workers[w].tasks && !s.workers[w].stopSeen
    {
      FreshWorkerOk(c, m, s.workers[w], w);
      FreshHeld(c, s.workers[w], w);
    }
    DealtIds(c, s.workers);
    var dealt := Target(c);
    assert c.ids == c.ids[..dealt] + c.ids[dealt..];
    assert s.completed.Keys == {};
    assert multiset(s.completed.Keys) == multiset{};
  }

  lemma {:induction false} RunInv(c: Config, m: Machine, run: seq<State>, i: nat)
    requires Accepted(c) && IsRun(c, m, run) && i < |run|
    ensures Inv(c, m, run[i])
  {
    hide Inv, Start, Enabled, Successor, Accepted;
    if i == 0 {
      StartInv(c, m, run[0]);
    } else {
      RunInv(c, m, run, i - 1);
      assert StepTo(c, m, run[i - 1], run[i - 1 + 1]);
      var step :| Enabled(c, run[i - 1], step) && run[i] == Successor(c, m, run[i - 1], step);
      StepInv(c, m, run[i - 1], step);
    }
  }
}
