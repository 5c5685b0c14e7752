/** What the self-play engine guarantees about every run, whatever the interleaving. */
module SelfPlayTheorems {
  import opened Options
  import opened SelfPlayMachine
  import opened SelfPlayProtocol
  import opened SelfPlayWorker
  import opened SelfPlayBroker
  import opened SelfPlayEngine
  import opened SelfPlayProgress

  // ----- safety -----

  /** Where an id is: pending, queued, active or reported with one worker, or completed. */
  ghost function Places(s: State, id: Id): nat {
    (multiset(s.pending) + HeldAll(s.workers) + multiset(s.completed.Keys))[id]
  }

  /** The games a worker holds and the shares: what the scheduler owes at every moment. */
  ghost predicate Scheduled(c: Config, s: State) {
    && (forall id :: Places(s, id) == if id in c.ids then 1 else 0)
    && Count(c) > 0 && |s.workers| == Count(c) && DealtBefore(c, Count(c)) == Target(c)
    && forall w :: 0 <= w < |s.workers| ==> |Held(s.workers[w])| <= Share(c, w) == s.workers[w].share
  }

  lemma PlacesAre(c: Config, s: State, id: Id)
    requires Accepted(c) && Accounted(c, s)
    ensures Places(s, id) == if id in c.ids then 1 else 0
  {
    hide HeldAll;
    DistinctOnce(c.ids, id);
    assert id in c.ids <==> multiset(c.ids)[id] > 0;
  }

  /** In every state of every run: each id is in exactly one place, no worker is loaded beyond its share, the
      shares sum to the target, and none of the engine's own error checks has fired - unless the broker
      rejected a request because some share exceeds the batch cap. */
  lemma EverySchedule(c: Config, m: Machine, run: seq<State>, i: nat)
    requires Accepted(c) && IsRun(c, m, run) && i < |run|
    ensures Scheduled(c, run[i])
    ensures !run[i].error && forall w :: 0 <= w < |run[i].workers| ==> !run[i].workers[w].failed
    ensures run[i].broker.fatal ==> Oversized(c)
  {
    hide Held, HeldAll, BrokerOk, PhaseOk, Share, Slots, Count, Target, IsRun, Tracked, Accounted, Places, Accepted;
    var s := run[i];
    RunInv(c, m, run, i);
    InvAccounts(c, m, s);
    forall id ensures Places(s, id) == if id in c.ids then 1 else 0 {
      PlacesAre(c, s, id);
    }
    SharesSum(c, 0);
    forall w | 0 <= w < |s.workers| ensures !s.workers[w].failed && |Held(s.workers[w])| <= Share(c, w) == s.workers[w].share {
      assert WorkerOk(c, m, w, s.workers[w]);
    }
  }

  // ----- the limits on active games -----

  /** Games that sit in a slot, over all workers. */
  function Seated(workers: seq<Worker>): nat {
    if workers == [] then 0 else Seated(workers[..|workers| - 1]) + Occupied(workers[|workers| - 1].seats)
  }

  /** The three limits: the games given, a full worker each, and the total that may be active. */
  predicate WithinLimits(c: Config, workers: nat, games: nat) {
    games <= |c.ids| && games <= workers * c.capacity && (c.totalCap.Some? ==> games <= c.totalCap.value)
  }

  /** No number of games above this one is within the limits. */
  predicate MeetsLimit(c: Config, workers: nat, games: nat) {
    games == |c.ids| || games == workers * c.capacity || c.totalCap == Some(games)
  }

  lemma TargetIsLimit(c: Config)
    ensures WithinLimits(c, Count(c), Target(c)) && MeetsLimit(c, Count(c), Target(c))
  {
    hide Count;
  }

  lemma ShareWithinCapacity(c: Config, w: nat)
    requires Count(c) > 0
    ensures Share(c, w) <= c.capacity
  {
    hide Count, Target;
    TargetIsLimit(c);
    DivMod(Target(c), Count(c));
    TimesGrows(Count(c), c.capacity + 1, Target(c) / Count(c));
    TimesGrows(Count(c), c.capacity, Target(c) / Count(c));
  }

  lemma TimesGrows(b: nat, x: nat, y: nat)
    ensures x <= y ==> b * x <= b * y
  {
  }

  lemma {:induction false} LoadsAdd(c: Config, workers: seq<Worker>)
    requires Count(c) > 0
    requires forall w :: 0 <= w < |workers| ==> |Held(workers[w])| <= Share(c, w)
    ensures Seated(workers) <= |HeldAll(workers)| <= DealtBefore(c, |workers|)
    ensures (forall w :: 0 <= w < |workers| ==> |Held(workers[w])| == Share(c, w)) ==> |HeldAll(workers)| == DealtBefore(c, |workers|)
  {
    hide Held, Share, Count, Occupied;
    if workers != [] {
      var last := |workers| - 1;
      LoadsAdd(c, workers[..last]);
      assert |HeldAll(workers)| == |HeldAll(workers[..last])| + |Held(workers[last])|;
      SeatedAreHeld(workers[last]);
    }
  }

  lemma SeatedAreHeld(v: Worker)
    ensures Occupied(v.seats) <= |Held(v)|
  {
    hide SeatIds, TaskIds, ReportIds, Occupied;
    SeatIdsCount(v.seats);
    assert |Held(v)| == |TaskIds(v.tasks)| + |SeatIds(v.seats)| + |ReportIds(v.reports)|;
  }

  /** In every state of every run: as many workers as configured but no more than games; the games queued, active or
      reported are within all three limits and no worker has more than its slots or its capacity; and while games wait to be
      handed out, one of the limits is met exactly, no two workers' loads differ by more than one, and the first worker's
      load is the number of slots of each. */
  lemma ActiveWithinLimits(c: Config, m: Machine, run: seq<State>, i: nat)
    requires Accepted(c) && IsRun(c, m, run) && i < |run|
    ensures var workers := run[i].workers;
      && |workers| <= c.workers && |workers| <= |c.ids| && (|workers| == c.workers || |workers| == |c.ids|)
      && Seated(workers) <= |HeldAll(workers)| && WithinLimits(c, |workers|, |HeldAll(workers)|)
      && (forall w :: 0 <= w < |workers| ==> |Held(workers[w])| <= |workers[w].seats| <= c.capacity)
      && (i == 0 || run[i].pending != [] ==>
            && MeetsLimit(c, |workers|, |HeldAll(workers)|)
            && forall w, u :: 0 <= w < |workers| && 0 <= u < |workers| ==>
                 |Held(workers[w])| <= |Held(workers[u])| + 1 && |workers[w].seats| == |Held(workers[0])|)
  {
    hide Held, HeldAll, BrokerOk, PhaseOk, Share, Slots, Target, IsRun, Tracked, Accounted, Accepted, Inv, Seated, StopsInOrder, ResultsSolo, WithinLimits, MeetsLimit;
    var s := run[i];
    RunInv(c, m, run, i);
    if i == 0 || s.pending != [] {
      RunLoads(c, m, run, i);
    }
    EverySchedule(c, m, run, i);
    TargetIsLimit(c);
    LoadsAdd(c, s.workers);
    FewerWithin(c, Count(c), Target(c), |HeldAll(s.workers)|);
    ShareWithinCapacity(c, 0);
    SlotsFit(c, m, s);
    forall w: nat ensures Share(c, w) <= Slots(c) <= Share(c, w) + 1 {
      SharesSum(c, w);
    }
  }

  lemma SlotsFit(c: Config, m: Machine, s: State)
    requires Inv(c, m, s)
    ensures Count(c) > 0 && Slots(c) == Share(c, 0) && forall w :: 0 <= w < |s.workers| ==> |Held(s.workers[w])| <= |s.workers[w].seats| == Slots(c)
  {
    hide Held, HeldAll, BrokerOk, PhaseOk, Share, Target, Count, Tracked, Accounted;
    forall w | 0 <= w < |s.workers| ensures |Held(s.workers[w])| <= |s.workers[w].seats| == Slots(c) {
      assert WorkerOk(c, m, w, s.workers[w]);
    }
  }

  lemma FewerWithin(c: Config, workers: nat, games: nat, fewer: nat)
    requires WithinLimits(c, workers, games) && fewer <= games
    ensures WithinLimits(c, workers, fewer)
  {
  }

  /** Until the last game is handed out every worker has its full share. */
  lemma RunLoads(c: Config, m: Machine, run: seq<State>, i: nat)
    requires Accepted(c) && IsRun(c, m, run) && i < |run| && (i == 0 || run[i].pending != [])
    ensures Count(c) > 0 && forall w :: 0 <= w < |run[i].workers| ==> |Held(run[i].workers[w])| == Share(c, w)
  {
    hide Held, HeldAll, BrokerOk, PhaseOk, Share, Slots, Target, Tracked, Accounted, Accepted, DealtBefore, FreshWorker;
    var s := run[i];
    RunInv(c, m, run, i);
    forall w | 0 <= w < |s.workers| ensures |Held(s.workers[w])| == Share(c, w) {
      assert WorkerOk(c, m, w, s.workers[w]);
      if i == 0 {
        assert FreshWorker(c, s.workers[w], w);
        FreshWorkerOk(c, m, s.workers[w], w);
      }
    }
  }

  // ----- slots in flight -----

  /** While a request is with the broker before and after a step, its worker's input rows are not touched, and
      its output rows change only when the dispatcher stores the evaluation of the row of that very slot. */
  lemma RowsInFlightAreFixed(c: Config, m: Machine, s: State, step: Step, r: Request, slot: nat)
    requires Inv(c, m, s) && Enabled(c, s, step) && r in Flight(s.broker) && slot in r.slots
    requires r in Flight(Successor(c, m, s, step).broker)
    ensures var at := (r.worker, slot);
      && InputAt(s, at).Some? && InputAt(Successor(c, m, s, step), at) == InputAt(s, at)
      && (OutputAt(Successor(c, m, s, step), at) == OutputAt(s, at) ||
          (step.Scatter? && OutputAt(Successor(c, m, s, step), at) == Some(m.infer(InputAt(s, at).value))))
  {
    hide Inv, Rows, WorkerNext, WorkerEnabled, DoScatter, DoHandle, DoIngress, DoGather, DoInfer, DoRespond, DoTakeBatch, Broken, IsBatch, Flight, InputAt, OutputAt, BrokerOk, WorkerOk, RequestOk, Tracked;
    InvAccounts(c, m, s);
    FlightMember(c, m, s, r, slot);
    var at := (r.worker, slot);
    if WorkerStep(step) {
      StepNotInFlight(c, m, s, step, r);
      OtherWorkerRows(s, step.w, WorkerNext(m, s.workers[step.w], step), at);
    } else if step.Scatter? {
      ScatterStores(c, m, s, at);
    } else if step.Handle? {
      HandleLeavesRows(c, m, s, step.w, at);
    } else {
      TransportLeavesRows(c, m, s, step, at);
    }
  }

  lemma OtherWorkerRows(s: State, w: nat, v': Worker, at: (nat, nat))
    requires w < |s.workers| && w != at.0
    ensures InputAt(s.(workers := s.workers[w := v']), at) == InputAt(s, at)
    ensures OutputAt(s.(workers := s.workers[w := v']), at) == OutputAt(s, at)
  {
  }

  /** Queues and dispatch phases are not the tensors. */
  lemma TransportLeavesRows(c: Config, m: Machine, s: State, step: Step, at: (nat, nat))
    requires Enabled(c, s, step) && !WorkerStep(step) && !step.Scatter? && !step.Handle?
    ensures InputAt(Successor(c, m, s, step), at) == InputAt(s, at)
    ensures OutputAt(Successor(c, m, s, step), at) == OutputAt(s, at)
  {
    hide Rows, Flat, Broken, IsBatch, WorkerEnabled;
  }

  lemma FlightMember(c: Config, m: Machine, s: State, r: Request, slot: nat)
    requires Inv(c, m, s) && r in Flight(s.broker) && slot in r.slots
    ensures RequestOk(s.workers, r) && InputAt(s, (r.worker, slot)).Some?
  {
    hide OnSolo, Suspended, Share, Slots, Count, SeatIds, TaskIds, ReportIds, DispatchOk, Flight, Accounted, Tracked;
    var i :| 0 <= i < |Flight(s.broker)| && Flight(s.broker)[i] == r;
    assert RequestOk(s.workers, r);
    var v := s.workers[r.worker];
    assert WorkerOk(c, m, r.worker, v);
    var j :| 0 <= j < |r.slots| && r.slots[j] == slot;
    assert Hanging(m, v.seats, v.phase.needs[j]);
  }

  lemma StepNotInFlight(c: Config, m: Machine, s: State, step: Step, r: Request)
    requires Count(c) > 0 && AllWorkersOk(c, m, s.workers) && WorkerStep(step) && Enabled(c, s, step) && RequestOk(s.workers, r)
    ensures step.w != r.worker
  {
    hide WorkerOk, WorkerNext, Held, Broken;
    assert WorkerOk(c, m, step.w, s.workers[step.w]);
    WorkerStepKeeps(c, m, step.w, s.workers[step.w], step);
  }

  lemma ScatterStores(c: Config, m: Machine, s: State, at: (nat, nat))
    requires Inv(c, m, s) && s.broker.dispatch.Scattering? && s.broker.dispatch.offset < Rows(s.broker.dispatch.batch)
    ensures InputAt(DoScatter(s), at) == InputAt(s, at)
    ensures OutputAt(DoScatter(s), at) == OutputAt(s, at) ||
            (InputAt(s, at).Some? && OutputAt(DoScatter(s), at) == Some(m.infer(InputAt(s, at).value)))
  {
    hide Rows, Flat, WorkerOk, Accounted, Tracked, FlightOk;
    InvParts(c, m, s);
    var d := s.broker.dispatch;
    var to := Flat(d.batch)[d.offset];
    assert to in Flat(d.batch);
    RowsInRange(c, m, s, to);
    assert AnsweredAt(m, s, Flat(d.batch)[d.offset], d.results[d.offset]);
  }

  lemma HandleLeavesRows(c: Config, m: Machine, s: State, w: nat, at: (nat, nat))
    requires Inv(c, m, s) && w < |s.workers| && s.workers[w].reports != []
    ensures InputAt(DoHandle(c, s, w), at) == InputAt(s, at) && OutputAt(DoHandle(c, s, w), at) == OutputAt(s, at)
  {
    hide Inv, Accounted, InputAt, OutputAt, DoHandle;
    InvAccounts(c, m, s);
    ReportIsNew(c, s, w);
    HandleRows(c, s, w, at);
  }

  lemma HandleRows(c: Config, s: State, w: nat, at: (nat, nat))
    requires w < |s.workers| && s.workers[w].reports != [] && s.workers[w].reports[0].id !in s.completed
    ensures InputAt(DoHandle(c, s, w), at) == InputAt(s, at) && OutputAt(DoHandle(c, s, w), at) == OutputAt(s, at)
  {
    hide Heard, StoppedIf, DoHandle;
    HandleIs(c, s, w);
    HeardRows(s, w);
    var id := s.workers[w].reports[0].id;
    var completed := s.completed[id := s.workers[w].reports[0].record];
    StoppedRows(|completed| == |c.ids|, s.workers[w := Heard(s, w)]);
  }

  lemma HeardRows(s: State, w: nat)
    requires w < |s.workers| && s.workers[w].reports != []
    ensures Heard(s, w).inputs == s.workers[w].inputs && Heard(s, w).outputs == s.workers[w].outputs
  {
  }

  lemma StoppedRows(full: bool, workers: seq<Worker>)
    ensures forall w :: 0 <= w < |workers| ==> StoppedIf(full, workers)[w].inputs == workers[w].inputs
                                               && StoppedIf(full, workers)[w].outputs == workers[w].outputs
  {
  }

  // ----- parallel refines sequential -----

  /** Every record the parent ever holds is the one that playing the game alone, row by row, ends with. */
  lemma CompletedAreSolo(c: Config, m: Machine, run: seq<State>, i: nat, id: Id)
    requires Accepted(c) && IsRun(c, m, run) && i < |run| && id in run[i].completed
    ensures id in c.ids && IsSoloRecord(m, id, run[i].completed[id])
  {
    hide HeldAll, IsSoloRecord, IsRun, Inv, Accepted;
    RunInv(c, m, run, i);
    InvAccounts(c, m, run[i]);
    assert multiset(run[i].completed.Keys)[id] == 1;
    assert multiset(c.ids)[id] >= 1;
  }

  /** The run has delivered: the parent's loop is over and the broker never failed. */
  predicate Finished(c: Config, s: State) {
    |s.completed| == |c.ids| && forall i :: 0 <= i < |c.ids| ==> c.ids[i] in s.completed
  }

  function Returned(c: Config, s: State): (records: seq<Record>)
    requires Finished(c, s)
  {
    seq(|c.ids|, i requires 0 <= i < |c.ids| => s.completed[c.ids[i]])
  }

  lemma AllCompleted(c: Config, m: Machine, s: State)
    requires Inv(c, m, s) && |s.completed| == |c.ids|
    ensures Finished(c, s)
  {
    hide HeldAll, BrokerOk, PhaseOk, Tracked, IsSoloRecord;
    var rest := multiset(s.pending) + HeldAll(s.workers);
    assert |rest + multiset(s.completed.Keys)| == |c.ids|;
    assert |rest| == 0;
    forall i | 0 <= i < |c.ids| ensures c.ids[i] in s.completed {
      assert multiset(c.ids)[c.ids[i]] > 0;
      assert (rest + multiset(s.completed.Keys))[c.ids[i]] > 0;
    }
  }

  /** Parallel refines sequential: when all games are in, the tuple returned is, in id order, the records that
      playing each game alone gives, whatever the worker count, slots, batching and interleaving were. */
  lemma ParallelRefinesSequential(c: Config, m: Machine, run: seq<State>)
    requires Accepted(c) && IsRun(c, m, run) && |run[|run| - 1].completed| == |c.ids|
    ensures Finished(c, run[|run| - 1])
    ensures forall i :: 0 <= i < |c.ids| ==> IsSoloRecord(m, c.ids[i], Returned(c, run[|run| - 1])[i])
  {
    hide IsSoloRecord, IsRun, Inv, Accepted;
    RunNotEmpty(c, m, run);
    var s := run[|run| - 1];
    RunInv(c, m, run, |run| - 1);
    AllCompleted(c, m, s);
    forall i | 0 <= i < |c.ids| ensures IsSoloRecord(m, c.ids[i], Returned(c, s)[i]) {
      CompletedAreSolo(c, m, run, |run| - 1, c.ids[i]);
    }
  }

  /** Two finished runs over the same ids return the same records, whatever their configurations. */
  lemma ConfigurationDoesNotMatter(c: Config, c': Config, m: Machine, run: seq<State>, run': seq<State>)
    requires Accepted(c) && Accepted(c') && c.ids == c'.ids && IsRun(c, m, run) && IsRun(c', m, run')
    requires |run[|run| - 1].completed| == |c.ids| && |run'[|run'| - 1].completed| == |c.ids|
    ensures Finished(c, run[|run| - 1]) && Finished(c', run'[|run'| - 1])
    ensures Returned(c, run[|run| - 1]) == Returned(c', run'[|run'| - 1])
  {
    hide IsSoloRecord, IsRun, Accepted;
    RunNotEmpty(c, m, run);
    RunNotEmpty(c', m, run');
    ParallelRefinesSequential(c, m, run);
    ParallelRefinesSequential(c', m, run');
    var r, r' := Returned(c, run[|run| - 1]), Returned(c', run'[|run'| - 1]);
    forall i | 0 <= i < |c.ids| ensures r[i] == r'[i] {
      SoloRecordUnique(m, c.ids[i], r[i], r'[i]);
    }
  }

  // ----- every run ends, and ends well -----

  /** If each game ends when played alone, no run is longer than its initial work. */
  lemma {:induction false} RunsAreBounded(c: Config, m: Machine, run: seq<State>, i: nat)
    requires Accepted(c) && IsRun(c, m, run) && i < |run| && forall id :: id in c.ids ==> Ends(m, m.start(id))
    ensures 0 <= Work(m, run[i]) <= Work(m, run[0]) - i
  {
    hide Inv, Start, Enabled, Successor, Accepted, Work, Ends;
    RunInv(c, m, run, i);
    WorkNonNegative(c, m, run[i]);
    if i > 0 {
      RunsAreBounded(c, m, run, i - 1);
      RunInv(c, m, run, i - 1);
      assert StepTo(c, m, run[i - 1], run[i - 1 + 1]);
      var step :| Enabled(c, run[i - 1], step) && run[i] == Successor(c, m, run[i - 1], step);
      StepWorks(c, m, run[i - 1], step);
    }
  }

  /** A run that cannot be continued. */
  ghost predicate Maximal(c: Config, s: State) {
    forall step :: !Enabled(c, s, step)
  }

  lemma RunNotEmpty(c: Config, m: Machine, run: seq<State>)
    requires IsRun(c, m, run)
    ensures run != []
  {
  }

  // ----- the shutdown -----

  /** A stop is in the worker's queue or has been taken out of it. */
  predicate WillStop(v: Worker) { TaskStop in v.tasks || v.stopSeen }

  predicate AtRest(s: State) {
    forall w :: 0 <= w < |s.workers| ==> s.workers[w].phase.Stopped?
  }

  predicate AllWillStop(c: Config, s: State) {
    |s.completed| >= |c.ids| ==> forall w :: 0 <= w < |s.workers| ==> WillStop(s.workers[w])
  }

  lemma WorkerKeepsStop(m: Machine, v: Worker, step: Step)
    requires WorkerStep(step) && WorkerEnabled(v, step) && WillStop(v)
    ensures WillStop(WorkerNext(m, v, step))
  {
    hide MayLease, Occupied;
  }

  lemma ScatterQueues(s: State)
    requires s.broker.dispatch.Scattering? && s.broker.dispatch.offset < Rows(s.broker.dispatch.batch)
    ensures var s' := DoScatter(s);
      && s'.completed == s.completed && |s'.workers| == |s.workers|
      && forall w :: 0 <= w < |s.workers| ==> s'.workers[w].tasks == s.workers[w].tasks && s'.workers[w].stopSeen == s.workers[w].stopSeen
  {
    hide Rows, Flat;
    var d := s.broker.dispatch;
    var at := Flat(d.batch)[d.offset];
    if d.offset < |d.results| && at.0 < |s.workers| && at.1 < |s.workers[at.0].outputs| {
      var v := s.workers[at.0];
      assert DoScatter(s).workers == s.workers[at.0 := v.(outputs := v.outputs[at.1 := d.results[d.offset]])];
    } else {
      assert DoScatter(s) == Fatal(s);
    }
  }

  /** The broker does not touch the task queues. */
  lemma QueuesSame(c: Config, m: Machine, s: State, step: Step)
    requires Enabled(c, s, step) && !WorkerStep(step) && !step.Handle?
    ensures var s' := Successor(c, m, s, step);
      && s'.completed == s.completed && |s'.workers| == |s.workers|
      && forall w :: 0 <= w < |s.workers| ==> s'.workers[w].tasks == s.workers[w].tasks && s'.workers[w].stopSeen == s.workers[w].stopSeen
  {
    hide Broken, IsBatch, WorkerEnabled, Rows, Flat, DoScatter;
    match step {
      case Ingress(_) =>
      case TakeBatch(_) =>
      case Gather =>
      case Infer =>
      case Scatter => ScatterQueues(s);
      case Finish =>
      case Respond =>
      case Rest =>
      case _ =>
    }
  }

  lemma StopsStay(c: Config, m: Machine, s: State, step: Step)
    requires Inv(c, m, s) && Enabled(c, s, step) && AllWillStop(c, s)
    ensures AllWillStop(c, Successor(c, m, s, step))
  {
    hide *;
    if WorkerStep(step) {
      WorkerStopStays(c, m, s, step);
    } else if step.Handle? {
      HandleStopStays(c, m, s, step);
    } else {
      QueuesSame(c, m, s, step);
      SameQueues(c, s, Successor(c, m, s, step));
    }
  }

  lemma WorkerStopStays(c: Config, m: Machine, s: State, step: Step)
    requires WorkerStep(step) && Enabled(c, s, step) && AllWillStop(c, s)
    ensures AllWillStop(c, Successor(c, m, s, step))
  {
    hide Broken, WorkerNext, WorkerEnabled, WillStop;
    if WillStop(s.workers[step.w]) {
      WorkerKeepsStop(m, s.workers[step.w], step);
    }
  }

  lemma HandleStopStays(c: Config, m: Machine, s: State, step: Step)
    requires Inv(c, m, s) && step.Handle? && Enabled(c, s, step)
    ensures AllWillStop(c, Successor(c, m, s, step))
  {
    hide Inv, Broken, WillStop, DoHandle, Heard, Accounted;
    InvAccounts(c, m, s);
    ReportIsNew(c, s, step.w);
    HandleIs(c, s, step.w);
    StopsAdded(s.workers[step.w := Heard(s, step.w)]);
  }

  lemma SameQueues(c: Config, s: State, s': State)
    requires AllWillStop(c, s) && s'.completed == s.completed && |s'.workers| == |s.workers|
    requires forall w :: 0 <= w < |s.workers| ==> s'.workers[w].tasks == s.workers[w].tasks && s'.workers[w].stopSeen == s.workers[w].stopSeen
    ensures AllWillStop(c, s')
  {
    hide WillStop;
    forall w | 0 <= w < |s.workers| ensures WillStop(s'.workers[w]) == WillStop(s.workers[w]) {
      SameQueue(s.workers[w], s'.workers[w]);
    }
  }

  lemma SameQueue(v: Worker, v': Worker)
    requires v'.tasks == v.tasks && v'.stopSeen == v.stopSeen
    ensures WillStop(v') == WillStop(v)
  {
  }

  lemma StopsAdded(workers: seq<Worker>)
    ensures forall w :: 0 <= w < |workers| ==> WillStop(StoppedIf(true, workers)[w])
  {
  }

  lemma {:induction false} StopsArrive(c: Config, m: Machine, run: seq<State>, i: nat)
    requires Accepted(c) && IsRun(c, m, run) && i < |run|
    ensures AllWillStop(c, run[i])
  {
    hide Inv, Enabled, Successor, AllWillStop, FreshWorker;
    if i == 0 {
      assert AllWillStop(c, run[0]) by { NobodyDone(c, run[0]); }
    } else {
      StopsArrive(c, m, run, i - 1);
      RunInv(c, m, run, i - 1);
      assert StepTo(c, m, run[i - 1], run[i - 1 + 1]);
      var step :| Enabled(c, run[i - 1], step) && run[i] == Successor(c, m, run[i - 1], step);
      StopsStay(c, m, run[i - 1], step);
    }
  }

  lemma NobodyDone(c: Config, s: State)
    requires Accepted(c) && s.completed == map[]
    ensures AllWillStop(c, s)
  {
  }

  /** A worker that holds nothing, will stop and can do nothing has stopped. */
  lemma IdleHasStopped(c: Config, m: Machine, s: State, w: nat)
    requires Inv(c, m, s) && Maximal(c, s) && w < |s.workers| && Held(s.workers[w]) == multiset{} && WillStop(s.workers[w])
    requires !s.broker.fatal
    ensures s.workers[w].phase.Stopped?
  {
    hide Inv, Broken, OnSolo, Suspended, SeatIds, TaskIds, ReportIds, Occupied, Share, Slots, Count, Maximal;
    var v := s.workers[w];
    InvParts(c, m, s);
    assert WorkerOk(c, m, w, v);
    NotBroken(c, m, s);
    SeatedAreHeld(v);
    NobodySeated(v.seats);
    if v.phase.Filling? {
      Stuck(c, s, if v.stopSeen then StopWorker(w) else Take(w));
    } else if v.phase.Advancing? {
      if v.phase.todo != [] {
        NobodyReady(m, v.seats, v.phase.todo[0]);
      }
      Stuck(c, s, End(w));
    } else if !v.phase.Stopped? {
      var first := v.phase.needs[0];
      NobodyReady(m, v.seats, first.slot);
      NobodyHanging(m, v.seats, first);
    }
  }

  lemma NobodyReady(m: Machine, seats: seq<Option<Seat>>, slot: nat)
    ensures (forall k :: 0 <= k < |seats| ==> seats[k].None?) ==> !Ready(m, seats, slot)
  {
  }

  lemma NobodyHanging(m: Machine, seats: seq<Option<Seat>>, need: Need)
    ensures (forall k :: 0 <= k < |seats| ==> seats[k].None?) ==> !Hanging(m, seats, need)
  {
  }

  lemma Stuck(c: Config, s: State, step: Step)
    requires Maximal(c, s)
    ensures !Enabled(c, s, step)
  {
  }

  lemma NobodySeated(seats: seq<Option<Seat>>)
    ensures Occupied(seats) == 0 ==> forall k :: 0 <= k < |seats| ==> seats[k].None?
  {
    hide Occupied, ActiveSlots, Increasing;
    ActiveSlotsAre(seats);
    if Occupied(seats) == 0 {
      forall k: nat | k < |seats| ensures seats[k].None? {
        assert k !in ActiveSlots(seats);
      }
    }
  }

  lemma NothingHeld(c: Config, s: State, w: nat)
    requires Accounted(c, s) && |s.completed| == |c.ids| && w < |s.workers|
    ensures Held(s.workers[w]) == multiset{}
  {
    hide Held, HeldAll;
    HeldWithin(s.workers, w);
    SizesAdd(multiset(s.pending), HeldAll(s.workers), multiset(s.completed.Keys));
    assert |multiset(s.completed.Keys)| == |s.completed.Keys|;
    assert |HeldAll(s.workers)| == 0;
  }

  /** Total correctness: with games that end when played alone, runs are bounded, and every run that cannot go on has
      returned the sequential records with every worker stopped, or has dropped a request above the batch cap, which
      needs a share above it. */
  lemma MaximalRunsDeliver(c: Config, m: Machine, run: seq<State>)
    requires Accepted(c) && IsRun(c, m, run) && Maximal(c, run[|run| - 1])
    requires forall id :: id in c.ids ==> Ends(m, m.start(id))
    ensures |run| <= Work(m, run[0]) + 1
    ensures run[|run| - 1].broker.fatal ==> Oversized(c)
    ensures !run[|run| - 1].broker.fatal ==>
              && Finished(c, run[|run| - 1])
              && (forall i :: 0 <= i < |c.ids| ==> IsSoloRecord(m, c.ids[i], Returned(c, run[|run| - 1])[i]))
              && AtRest(run[|run| - 1])
  {
    hide Inv, IsRun, Accepted, Work, Ends, Oversized, Enabled, IsSoloRecord, WillStop, Maximal;
    RunNotEmpty(c, m, run);
    var s := run[|run| - 1];
    RunInv(c, m, run, |run| - 1);
    RunsAreBounded(c, m, run, |run| - 1);
    EverySchedule(c, m, run, |run| - 1);
    CompletedFew(c, m, s);
    if !s.broker.fatal {
      if |s.completed| < |c.ids| {
        var step := NoDeadlock(c, m, s);
        Stuck(c, s, step);
        assert false;
      }
      ParallelRefinesSequential(c, m, run);
      AllStopped(c, m, run);
    }
  }

  lemma AllStopped(c: Config, m: Machine, run: seq<State>)
    requires Accepted(c) && IsRun(c, m, run) && run != [] && Maximal(c, run[|run| - 1]) && |run[|run| - 1].completed| == |c.ids|
    requires !run[|run| - 1].broker.fatal
    ensures AtRest(run[|run| - 1])
  {
    hide Inv, IsRun, Accepted, Enabled, WillStop, Maximal, Held, Accounted;
    var s := run[|run| - 1];
    RunInv(c, m, run, |run| - 1);
    InvAccounts(c, m, s);
    StopsArrive(c, m, run, |run| - 1);
    forall w: nat | w < |s.workers| ensures s.workers[w].phase.Stopped? {
      NothingHeld(c, s, w);
      IdleHasStopped(c, m, s, w);
    }
  }

  lemma CompletedFew(c: Config, m: Machine, s: State)
    requires Inv(c, m, s)
    ensures |s.completed| <= |c.ids|
  {
    hide HeldAll, BrokerOk, PhaseOk, Tracked;
    SizesAdd(multiset(s.pending), HeldAll(s.workers), multiset(s.completed.Keys));
    assert |multiset(s.completed.Keys)| == |s.completed.Keys|;
  }

  // ----- a share above the batch cap -----

  /** Steps lead from one state to another. */
  ghost predicate Leads(c: Config, m: Machine, s: State, s': State) {
    exists path: seq<State> :: IsPath(c, m, path) && path[0] == s && path[|path| - 1] == s'
  }

  ghost predicate IsPath(c: Config, m: Machine, path: seq<State>) {
    path != [] && forall i :: 0 <= i < |path| - 1 ==> StepTo(c, m, path[i], path[i + 1])
  }

  lemma LeadsHere(c: Config, m: Machine, s: State)
    ensures Leads(c, m, s, s)
  {
    assert IsPath(c, m, [s]);
  }

  lemma LeadsOn(c: Config, m: Machine, s: State, s': State, step: Step)
    requires Leads(c, m, s, s') && Enabled(c, s', step)
    ensures Leads(c, m, s, Successor(c, m, s', step))
  {
    hide Enabled, Successor;
    var path :| IsPath(c, m, path) && path[0] == s && path[|path| - 1] == s';
    var longer := path + [Successor(c, m, s', step)];
    forall i | 0 <= i < |longer| - 1 ensures StepTo(c, m, longer[i], longer[i + 1]) {
      if i < |path| - 1 {
        assert longer[i] == path[i] && longer[i + 1] == path[i + 1];
      } else {
        assert StepTo(c, m, s', Successor(c, m, s', step));
      }
    }
    assert IsPath(c, m, longer);
  }

  /** One more step of worker w on the way from s0. */
  lemma WorkerGoesOn(c: Config, m: Machine, s0: State, s: State, step: Step) returns (s': State)
    requires Leads(c, m, s0, s) && Inv(c, m, s) && !s.broker.fatal && WorkerStep(step)
    requires step.w < |s.workers| && WorkerEnabled(s.workers[step.w], step)
    ensures Leads(c, m, s0, s') && Inv(c, m, s') && !s'.broker.fatal && |s'.workers| == |s.workers|
    ensures s'.workers[step.w] == WorkerNext(m, s.workers[step.w], step)
  {
    hide Inv, Broken, WorkerNext, WorkerEnabled, Leads;
    NotBroken(c, m, s);
    s' := Successor(c, m, s, step);
    StepInv(c, m, s, step);
    LeadsOn(c, m, s0, s, step);
  }

  lemma {:induction false} TakeAll(c: Config, m: Machine, s0: State, s: State, w: nat) returns (s': State)
    requires Leads(c, m, s0, s) && Inv(c, m, s) && !s.broker.fatal && w < |s.workers|
    requires var v := s.workers[w];
      v.phase.Filling? && !v.stopSeen && (forall i :: 0 <= i < |v.tasks| ==> v.tasks[i].Play?) && Occupied(v.seats) + |v.tasks| == v.share
    ensures Leads(c, m, s0, s') && Inv(c, m, s') && !s'.broker.fatal && |s'.workers| == |s.workers|
    ensures s'.workers[w].phase.Filling? && Occupied(s'.workers[w].seats) == s'.workers[w].share == s.workers[w].share
    decreases |s.workers[w].tasks|
  {
    hide Inv, Leads, Held, SeatIds, Occupied;
    var v := s.workers[w];
    if v.tasks == [] {
      s' := s;
    } else {
      var next := WorkerGoesOn(c, m, s0, s, Take(w));
      TookOne(c, m, s, w);
      s' := TakeAll(c, m, s0, next, w);
    }
  }

  lemma TookOne(c: Config, m: Machine, s: State, w: nat)
    requires Inv(c, m, s) && w < |s.workers| && CanTake(s.workers[w]) && s.workers[w].tasks[0].Play?
    ensures var v, v' := s.workers[w], TakeTask(m, s.workers[w]);
      && v'.phase == v.phase && v'.stopSeen == v.stopSeen && v'.tasks == v.tasks[1..] && v'.share == v.share
      && Occupied(v'.seats) == Occupied(v.seats) + 1
  {
    hide BrokerOk, Accounted, Tracked, PhaseOk, Share, Slots, Count, SeatIds, TaskIds, ReportIds, Occupied;
    var v := s.workers[w];
    assert WorkerOk(c, m, w, v);
    TaskIdsTail(v.tasks);
    SeatIdsCount(v.seats);
    var k := FreeSlot(v.seats);
    var seat := Seat(v.tasks[0].id, m.start(v.tasks[0].id));
    SeatTaken(v.seats, k, seat);
    SeatIdsCount(v.seats[k := Some(seat)]);
  }

  lemma {:induction false} AdvanceAll(c: Config, m: Machine, s0: State, s: State, w: nat, share: nat) returns (s': State)
    requires Leads(c, m, s0, s) && Inv(c, m, s) && !s.broker.fatal && w < |s.workers|
    requires forall game :: m.advance(game).InferenceNeed?
    requires var p := s.workers[w].phase; p.Advancing? && |p.todo| + |p.needs| == share
    ensures Leads(c, m, s0, s') && Inv(c, m, s') && !s'.broker.fatal && |s'.workers| == |s.workers|
    ensures s'.workers[w].phase.Advancing? && s'.workers[w].phase.todo == [] && |s'.workers[w].phase.needs| == share
    decreases |s.workers[w].phase.todo|
  {
    hide Inv, Leads;
    if s.workers[w].phase.todo == [] {
      s' := s;
    } else {
      var next := WorkerGoesOn(c, m, s0, s, Advance(w));
      AdvancedOne(c, m, s, w);
      s' := AdvanceAll(c, m, s0, next, w, share);
    }
  }

  lemma AdvancedOne(c: Config, m: Machine, s: State, w: nat)
    requires Inv(c, m, s) && w < |s.workers| && CanAdvance(s.workers[w]) && forall game :: m.advance(game).InferenceNeed?
    ensures var p, p' := s.workers[w].phase, AdvanceOne(m, s.workers[w]).phase;
      p'.Advancing? && p'.todo == p.todo[1..] && |p'.needs| == |p.needs| + 1
  {
    hide BrokerOk, Accounted, Tracked, OnSolo, Share, Slots, Count, Held;
    var v := s.workers[w];
    assert WorkerOk(c, m, w, v);
    assert Ready(m, v.seats, v.phase.todo[0]);
  }

  lemma {:induction false} WriteAll(c: Config, m: Machine, s0: State, s: State, w: nat) returns (s': State)
    requires Leads(c, m, s0, s) && Inv(c, m, s) && !s.broker.fatal && w < |s.workers|
    requires s.workers[w].phase.Writing? && s.workers[w].phase.written <= |s.workers[w].phase.needs|
    ensures Leads(c, m, s0, s') && Inv(c, m, s') && !s'.broker.fatal && |s'.workers| == |s.workers|
    ensures s'.workers[w].phase == Writing(s.workers[w].phase.needs, |s.workers[w].phase.needs|)
    decreases |s.workers[w].phase.needs| - s.workers[w].phase.written
  {
    hide Inv, Leads;
    if s.workers[w].phase.written == |s.workers[w].phase.needs| {
      s' := s;
    } else {
      var next := WorkerGoesOn(c, m, s0, s, Write(w));
      NotFailed(c, m, next, w);
      s' := WriteAll(c, m, s0, next, w);
    }
  }

  lemma NotFailed(c: Config, m: Machine, s: State, w: nat)
    requires Inv(c, m, s) && w < |s.workers|
    ensures !s.workers[w].failed && Count(c) > 0 && WorkerOk(c, m, w, s.workers[w])
  {
    hide BrokerOk, Accounted, Tracked, PhaseOk, Share, Slots, Count, Held;
    assert WorkerOk(c, m, w, s.workers[w]);
  }

  lemma FreshIsEmpty(c: Config, s: State, w: nat)
    requires Count(c) > 0 && w < |s.workers| && FreshWorker(c, s.workers[w], w)
    ensures Occupied(s.workers[w].seats) == 0
  {
    hide Share, Slots, Count, DealtBefore;
    FreshSeats(s.workers[w].seats);
    SeatIdsCount(s.workers[w].seats);
  }

  /** Worker w fills all its slots. */
  lemma FillsUp(c: Config, m: Machine, s0: State, w: nat) returns (s: State)
    requires Accepted(c) && Start(c, s0) && w < Count(c)
    ensures Leads(c, m, s0, s) && Inv(c, m, s) && !s.broker.fatal && w < |s.workers|
    ensures s.workers[w].phase.Filling? && Occupied(s.workers[w].seats) == Share(c, w)
  {
    hide Inv, Leads, Share, Slots, Target, Count, DealtBefore, Occupied;
    StartInv(c, m, s0);
    LeadsHere(c, m, s0);
    FreshIsEmpty(c, s0, w);
    s := TakeAll(c, m, s0, s0, w);
  }

  /** One round in which every game asks for an evaluation. */
  lemma AsksForAll(c: Config, m: Machine, s0: State, s1: State, w: nat, share: nat) returns (s: State)
    requires Leads(c, m, s0, s1) && Inv(c, m, s1) && !s1.broker.fatal && w < |s1.workers| && share > 0
    requires s1.workers[w].phase.Filling? && Occupied(s1.workers[w].seats) == share
    requires forall game :: m.advance(game).InferenceNeed?
    ensures Leads(c, m, s0, s) && Inv(c, m, s) && !s.broker.fatal && w < |s.workers|
    ensures s.workers[w].phase.Advancing? && s.workers[w].phase.todo == [] && |s.workers[w].phase.needs| == share
  {
    hide Inv, Leads, Occupied;
    ActiveSlotsAre(s1.workers[w].seats);
    var s2 := WorkerGoesOn(c, m, s0, s1, Begin(w));
    s := AdvanceAll(c, m, s0, s2, w, share);
  }

  /** The rows are written and the request is sent. */
  lemma SubmitsAll(c: Config, m: Machine, s0: State, s3: State, w: nat) returns (s: State)
    requires Leads(c, m, s0, s3) && Inv(c, m, s3) && !s3.broker.fatal && w < |s3.workers|
    requires s3.workers[w].phase.Advancing? && s3.workers[w].phase.todo == [] && s3.workers[w].phase.needs != []
    ensures Leads(c, m, s0, s) && Inv(c, m, s) && !s.broker.fatal && w < |s.workers|
    ensures s.workers[w].phase == Waiting(s3.workers[w].phase.needs) && s.workers[w].outbox != []
  {
    hide Inv, Leads, MayLease, WorkerOk;
    var s4 := WorkerGoesOn(c, m, s0, s3, End(w));
    NotFailed(c, m, s3, w);
    NotFailed(c, m, s4, w);
    var s5 := WriteAll(c, m, s0, s4, w);
    s := WorkerGoesOn(c, m, s0, s5, Submit(w));
  }

  lemma IngressRejects(c: Config, s: State, w: nat)
    requires w < |s.workers| && s.workers[w].outbox != [] && |s.workers[w].outbox[0].slots| > c.batchCap
    ensures DoIngress(c, s, w).broker.fatal
  {
  }

  /** The other half of the cap condition: with a share above the batch cap and games that keep asking for
      evaluations, a run exists from every start in which the broker goes fatal. So the engine is safe from its
      own row check for all games exactly when no share exceeds the cap. */
  lemma OversizedCanFail(c: Config, m: Machine, s0: State, w: nat) returns (s: State)
    requires Accepted(c) && Start(c, s0) && w < Count(c) && Share(c, w) > c.batchCap
    requires forall game :: m.advance(game).InferenceNeed?
    ensures Leads(c, m, s0, s) && s.broker.fatal
  {
    hide Inv, Leads, Share, Slots, Target, Count, DealtBefore, Start, WorkerOk, Broken, DoIngress;
    var s1 := FillsUp(c, m, s0, w);
    var s3 := AsksForAll(c, m, s0, s1, w, Share(c, w));
    var s6 := SubmitsAll(c, m, s0, s3, w);
    NotFailed(c, m, s6, w);
    SentRequest(c, m, s6, w);
    NotBroken(c, m, s6);
    IngressRejects(c, s6, w);
    s := Successor(c, m, s6, Ingress(w));
    LeadsOn(c, m, s0, s6, Ingress(w));
  }

  /** Such a configuration is accepted: two games in one worker and room for one row. */
  lemma TwoGamesOneRow(a: Id, b: Id)
    requires a != b
    ensures var c := Config([a, b], 1, 2, None, 1);
      Accepted(c) && Count(c) == 1 && Share(c, 0) == 2 > c.batchCap && Oversized(c)
  {
    assert Share(Config([a, b], 1, 2, None, 1), 0) == 2;
  }

  lemma SentRequest(c: Config, m: Machine, s: State, w: nat)
    requires Count(c) > 0 && w < |s.workers| && WorkerOk(c, m, w, s.workers[w]) && s.workers[w].phase.Waiting? && s.workers[w].outbox != []
    ensures |s.workers[w].outbox[0].slots| == |s.workers[w].phase.needs|
  {
    hide Share, Slots, Count, Held, OnSolo, Suspended;
  }
}
