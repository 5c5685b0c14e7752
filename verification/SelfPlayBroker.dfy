/** Broker and dispatcher: requests in flight keep their rows, and every scattered row is the evaluation of its own input. */
module SelfPlayBroker {
  import opened Options
  import opened SelfPlayMachine
  import opened SelfPlayProtocol
  import opened SelfPlayWorker

  // ----- batches -----

  function Remaining(d: Dispatch): seq<Request> {
    match d case Idle => [] case Gathering(b, _) => b case Scattering(b, _, _) => b case Responding(b) => b
  }

  /** Requests the broker holds, in the order they will be answered. */
  function Flight(b: Broker): seq<Request> { Remaining(b.dispatch) + b.pending }

  lemma {:induction false} FlatIndex(batch: seq<Request>, k: nat) returns (i: nat, j: nat)
    requires k < Rows(batch)
    ensures i < |batch| && j < |batch[i].slots| && Flat(batch)[k] == (batch[i].worker, batch[i].slots[j])
    ensures k == Rows(batch[..i]) + j
  {
    var last := |batch| - 1;
    if k < Rows(batch[..last]) {
      i, j := FlatIndex(batch[..last], k);
      assert batch[..last][..i] == batch[..i];
    } else {
      i, j := last, k - Rows(batch[..last]);
    }
  }

  lemma {:induction false} InFlat(batch: seq<Request>, at: (nat, nat))
    ensures at in Flat(batch) <==> exists i :: 0 <= i < |batch| && batch[i].worker == at.0 && at.1 in batch[i].slots
  {
    if batch != [] {
      var last := |batch| - 1;
      InFlat(batch[..last], at);
      var r := batch[last];
      var rows := seq(|r.slots|, i requires 0 <= i < |r.slots| => (r.worker, r.slots[i]));
      assert Flat(batch) == Flat(batch[..last]) + rows;
      if at in rows {
        var i :| 0 <= i < |rows| && rows[i] == at;
      }
      if r.worker == at.0 && at.1 in r.slots {
        var i :| 0 <= i < |r.slots| && r.slots[i] == at.1;
        assert rows[i] == at;
      }
      if i :| 0 <= i < last && batch[i].worker == at.0 && at.1 in batch[i].slots {
        assert batch[..last][i].worker == at.0 && at.1 in batch[..last][i].slots;
      }
    }
  }

  lemma {:induction false} RowsSplit(a: seq<Request>, b: seq<Request>)
    ensures Rows(a + b) == Rows(a) + Rows(b)
  {
    if b == [] {
      assert a + b == a;
    } else {
      var last := |b| - 1;
      assert (a + b)[..|a| + last] == a + b[..last];
      RowsSplit(a, b[..last]);
    }
  }

  lemma RowsStep(batch: seq<Request>, i: nat)
    requires i < |batch|
    ensures Rows(batch[..i + 1]) == Rows(batch[..i]) + |batch[i].slots|
  {
    assert batch[..i + 1][..i] == batch[..i];
  }

  lemma {:induction false} RowsMonotone(batch: seq<Request>, i: nat, j: nat)
    requires i <= j <= |batch|
    ensures Rows(batch[..i]) <= Rows(batch[..j])
    decreases j - i
  {
    if i < j {
      RowsMonotone(batch, i, j - 1);
      RowsStep(batch, j - 1);
    }
  }

  /** The batch rule leaves no choice. */
  lemma BatchUnique(pending: seq<Request>, cap: nat, k: nat, l: nat)
    requires IsBatch(pending, cap, k) && IsBatch(pending, cap, l)
    ensures k == l
  {
    if k < l {
      RowsMonotone(pending, k + 1, l);
    } else if l < k {
      RowsMonotone(pending, l + 1, k);
    }
  }

  function Joined(groups: seq<seq<Request>>): seq<Request> {
    if groups == [] then [] else Joined(groups[..|groups| - 1]) + groups[|groups| - 1]
  }

  lemma JoinedPush(groups: seq<seq<Request>>, i: nat)
    requires i < |groups|
    ensures Joined(groups[..i + 1]) == Joined(groups[..i]) + groups[i]
  {
    assert groups[..i + 1][..i] == groups[..i];
  }

  lemma NothingJoined(groups: seq<seq<Request>>)
    ensures groups[..0] == [] && Joined([]) == []
  {
  }

  lemma JoinedLast(groups: seq<seq<Request>>, last: seq<Request>)
    ensures Joined(groups + [last]) == Joined(groups) + last
  {
    assert (groups + [last])[..|groups|] == groups;
  }

  lemma {:induction false} JoinedPrefix(groups: seq<seq<Request>>, i: nat)
    requires i <= |groups|
    ensures Joined(groups[..i]) <= Joined(groups)
    decreases |groups| - i
  {
    if i == |groups| {
      assert groups[..i] == groups;
    } else {
      JoinedPush(groups, i);
      JoinedPrefix(groups, i + 1);
    }
  }

  /** Requests the ingress check lets through. */
  predicate AllFit(requests: seq<Request>, cap: nat) {
    forall j :: 0 <= j < |requests| ==> 0 < |requests[j].slots| <= cap
  }

  lemma StillFits(all: seq<Request>, start: seq<Request>, coming: seq<Request>, come: seq<Request>, gone: seq<Request>, waiting: seq<Request>, cap: nat)
    requires AllFit(all, cap) && all == start + coming && come <= coming && gone + waiting == start + come
    ensures AllFit(waiting, cap)
  {
    forall j | 0 <= j < |waiting| ensures 0 < |waiting[j].slots| <= cap {
      assert (gone + waiting)[|gone| + j] == waiting[j];
      assert all[|gone| + j] == (start + come)[|gone| + j];
    }
  }

  /** The broker's deque of received requests. */
  class PendingQueue {
    var requests: seq<Request>

    /** Append at the right, as ingress does. */
    method Push(request: Request)
      modifies this
      ensures requests == old(requests) + [request]
    {
      requests := requests + [request];
    }

    /** Pop requests from the left while they fit: a non-empty maximal prefix, in arrival order. */
    method TakeBatch(cap: nat) returns (batch: seq<Request>)
      requires requests != [] && AllFit(requests, cap)
      modifies this
      ensures batch + requests == old(requests) && IsBatch(old(requests), cap, |batch|)
    {
      batch := [];
      var rows := 0;
      ghost var all := requests;
      while requests != []
        invariant batch + requests == all && rows == Rows(batch) <= cap
        invariant batch == [] ==> rows == 0
        decreases |requests|
      {
        var request := requests[0];
        Prefix(all, batch, requests);
        if rows > 0 && rows + |request.slots| > cap {
          assert all[..|batch|] == batch;
          return;
        }
        requests := requests[1..];
        batch := batch + [request];
        rows := rows + |request.slots|;
        if rows == cap {
          FullBatch(all, batch, cap);
          return;
        }
      }
      assert batch == all && all[..|batch|] == batch;
    }

    method Receive(arrived: seq<Request>)
      modifies this
      ensures requests == old(requests) + arrived
    {
      for j := 0 to |arrived|
        invariant requests == old(requests) + arrived[..j]
      {
        assert arrived[..j + 1] == arrived[..j] + [arrived[j]];
        Push(arrived[j]);
      }
      assert arrived[..|arrived|] == arrived;
    }

    /** The broker at work: requests arrive, and the dispatcher takes a batch whenever some are waiting. None is lost
        and none overtakes another, whatever arrives between two batches. */
    method Serve(arrivals: seq<seq<Request>>, cap: nat) returns (batches: seq<seq<Request>>)
      requires AllFit(requests + Joined(arrivals), cap)
      modifies this
      ensures Joined(batches) + requests == old(requests) + Joined(arrivals)
      ensures forall k :: 0 <= k < |batches| ==> batches[k] != [] && Rows(batches[k]) <= cap
    {
      hide IsBatch, Rows, Joined, AllFit;
      batches := [];
      ghost var all := requests + Joined(arrivals);
      NothingJoined(arrivals);
      for i := 0 to |arrivals|
        invariant Joined(batches) + requests == old(requests) + Joined(arrivals[..i])
        invariant forall k :: 0 <= k < |batches| ==> batches[k] != [] && Rows(batches[k]) <= cap
      {
        ghost var before := requests;
        Receive(arrivals[i]);
        JoinedPush(arrivals, i);
        JoinedPrefix(arrivals, i + 1);
        assert Joined(batches) + requests == (Joined(batches) + before) + arrivals[i];
        if requests != [] {
          ghost var waiting := requests;
          StillFits(all, old(requests), Joined(arrivals), Joined(arrivals[..i + 1]), Joined(batches), waiting, cap);
          var batch := TakeBatch(cap);
          BatchIs(waiting, cap, batch);
          JoinedLast(batches, batch);
          assert (Joined(batches) + batch) + requests == Joined(batches) + waiting;
          batches := batches + [batch];
        }
      }
      assert arrivals[..|arrivals|] == arrivals;
    }

    lemma BatchIs(waiting: seq<Request>, cap: nat, batch: seq<Request>)
      requires batch <= waiting && IsBatch(waiting, cap, |batch|)
      ensures batch != [] && Rows(batch) <= cap
    {
      assert waiting[..|batch|] == batch;
    }

    lemma Prefix(all: seq<Request>, batch: seq<Request>, rest: seq<Request>)
      requires batch + rest == all && rest != []
      ensures all[..|batch|] == batch && batch + [rest[0]] == all[..|batch| + 1]
      ensures Rows(all[..|batch| + 1]) == Rows(batch) + |rest[0].slots|
    {
      hide Rows;
      RowsStep(all, |batch|);
    }

    lemma FullBatch(all: seq<Request>, batch: seq<Request>, cap: nat)
      requires |batch| <= |all| && batch == all[..|batch|] && batch != [] && Rows(batch) == cap
      requires forall i :: 0 <= i < |all| ==> 0 < |all[i].slots|
      ensures IsBatch(all, cap, |batch|)
    {
      if |batch| < |all| {
        RowsStep(all, |batch|);
      }
    }
  }

  // ----- the broker invariant -----

  function OutputAt(s: State, at: (nat, nat)): Option<Evaluation> {
    if at.0 < |s.workers| && at.1 < |s.workers[at.0].outputs| then Some(s.workers[at.0].outputs[at.1]) else None
  }

  /** A request in flight: its worker waits for exactly this one. */
  predicate RequestOk(workers: seq<Worker>, r: Request) {
    && r.worker < |workers| && InFlight(workers[r.worker])
    && r.number + 1 == workers[r.worker].nextNumber && r.slots == SlotsOf(workers[r.worker].phase.needs)
  }

  predicate FlightOk(workers: seq<Worker>, flight: seq<Request>) {
    && (forall i :: 0 <= i < |flight| ==> RequestOk(workers, flight[i]))
    && (forall i, j :: 0 <= i < j < |flight| ==> flight[i].worker != flight[j].worker)
  }

  ghost predicate AnsweredAt(m: Machine, s: State, at: (nat, nat), result: Evaluation) {
    InputAt(s, at).Some? && m.infer(InputAt(s, at).value) == result
  }

  ghost predicate DispatchOk(m: Machine, s: State) {
    match s.broker.dispatch
    case Idle => true
    case Gathering(batch, staging) =>
      && |staging| <= Rows(batch)
      && forall k :: 0 <= k < |staging| ==> InputAt(s, Flat(batch)[k]) == Some(staging[k])
    case Scattering(batch, results, offset) =>
      && |results| == Rows(batch) && offset <= Rows(batch)
      && (forall k :: 0 <= k < |results| ==> AnsweredAt(m, s, Flat(batch)[k], results[k]))
      && (forall k :: 0 <= k < offset ==> OutputAt(s, Flat(batch)[k]) == Some(results[k]))
    case Responding(batch) =>
      forall at :: at in Flat(batch) ==> OutputAt(s, at).Some? && AnsweredAt(m, s, at, OutputAt(s, at).value)
  }

  ghost predicate BrokerOk(m: Machine, s: State) {
    FlightOk(s.workers, Flight(s.broker)) && DispatchOk(m, s)
  }

  /** The fields of a worker that the broker looks at. */
  predicate SameToBroker(v: Worker, v': Worker) {
    && v'.phase == v.phase && v'.outbox == v.outbox && v'.responses == v.responses
    && v'.nextNumber == v.nextNumber && v'.inputs == v.inputs && v'.outputs == v.outputs
  }

  predicate Undisturbed(s: State, s': State, flight: seq<Request>) {
    && |s'.workers| == |s.workers|
    && forall i :: 0 <= i < |flight| ==> flight[i].worker < |s.workers| && SameToBroker(s.workers[flight[i].worker], s'.workers[flight[i].worker])
  }

  /** What the broker relies on survives any step that leaves the workers in flight alone. */
  lemma BrokerFrame(m: Machine, s: State, s': State)
    requires BrokerOk(m, s) && s'.broker == s.broker && Undisturbed(s, s', Flight(s.broker))
    ensures BrokerOk(m, s')
  {
    hide Flat, Rows, SlotsOf;
    var batch := Remaining(s.broker.dispatch);
    forall at | at in Flat(batch) ensures InputAt(s', at) == InputAt(s, at) && OutputAt(s', at) == OutputAt(s, at) {
      FlatInFlight(s, s', batch, at);
    }
    forall i | 0 <= i < |Flight(s.broker)| ensures RequestOk(s'.workers, Flight(s.broker)[i]) {
      assert RequestOk(s.workers, Flight(s.broker)[i]);
    }
    DispatchFrame(m, s, s');
  }

  lemma FlatInFlight(s: State, s': State, batch: seq<Request>, at: (nat, nat))
    requires Undisturbed(s, s', Flight(s.broker)) && batch == Remaining(s.broker.dispatch) && at in Flat(batch)
    ensures InputAt(s', at) == InputAt(s, at) && OutputAt(s', at) == OutputAt(s, at)
  {
    InFlat(batch, at);
    var i :| 0 <= i < |batch| && batch[i].worker == at.0 && at.1 in batch[i].slots;
    assert Flight(s.broker)[i] == batch[i];
  }

  lemma DispatchFrame(m: Machine, s: State, s': State)
    requires DispatchOk(m, s) && s'.broker == s.broker
    requires forall at :: at in Flat(Remaining(s.broker.dispatch)) ==> InputAt(s', at) == InputAt(s, at) && OutputAt(s', at) == OutputAt(s, at)
    ensures DispatchOk(m, s')
  {
    hide Rows, InputAt, OutputAt;
    var batch := Remaining(s.broker.dispatch);
    forall k: nat | k < |Flat(batch)| ensures Flat(batch)[k] in Flat(batch) {
    }
  }

  // ----- broker steps -----

  /** The request leaves the worker's outbox. */
  function Submitted(s: State, w: nat): State
    requires w < |s.workers| && s.workers[w].outbox != []
  {
    s.(workers := s.workers[w := s.workers[w].(outbox := s.workers[w].outbox[1..])])
  }

  lemma SubmittedKeeps(c: Config, m: Machine, s: State, w: nat)
    requires Count(c) > 0 && |s.workers| == Count(c) && BrokerOk(m, s) && w < |s.workers| && s.workers[w].outbox != []
    requires WorkerOk(c, m, w, s.workers[w])
    ensures BrokerOk(m, Submitted(s, w)) && WorkerOk(c, m, w, Submitted(s, w).workers[w])
    ensures Held(Submitted(s, w).workers[w]) == Held(s.workers[w])
    ensures RequestOk(Submitted(s, w).workers, s.workers[w].outbox[0]) && s.workers[w].outbox[0].worker == w
    ensures 0 < |s.workers[w].outbox[0].slots| <= Share(c, w)
    ensures forall i :: 0 <= i < |Flight(s.broker)| ==> Flight(s.broker)[i].worker != w
  {
    hide Flat, Rows, OnSolo, Suspended, Share, Slots, Count, DispatchOk, SeatIds, TaskIds, ReportIds, SlotsOf, Flight;
    var v := s.workers[w];
    assert v.outbox == [Request(w, v.nextNumber - 1, SlotsOf(v.phase.needs))];
    forall i | 0 <= i < |Flight(s.broker)| ensures Flight(s.broker)[i].worker != w {
      assert RequestOk(s.workers, Flight(s.broker)[i]);
    }
    RequestSize(c, m, w, v);
    FlightUndisturbed(s, Submitted(s, w), w, Flight(s.broker));
    BrokerFrame(m, s, Submitted(s, w));
  }

  lemma FlightUndisturbed(s: State, s': State, w: nat, flight: seq<Request>)
    requires FlightOk(s.workers, flight) && |s'.workers| == |s.workers| && w < |s.workers|
    requires forall u :: 0 <= u < |s.workers| && u != w ==> s'.workers[u] == s.workers[u]
    requires forall i :: 0 <= i < |flight| ==> flight[i].worker != w
    ensures Undisturbed(s, s', flight)
  {
    forall i | 0 <= i < |flight| ensures flight[i].worker < |s.workers| && SameToBroker(s.workers[flight[i].worker], s'.workers[flight[i].worker]) {
      assert RequestOk(s.workers, flight[i]);
    }
  }

  lemma IngressKeeps(c: Config, m: Machine, s: State, w: nat)
    requires Count(c) > 0 && |s.workers| == Count(c) && BrokerOk(m, s) && w < |s.workers| && s.workers[w].outbox != []
    requires WorkerOk(c, m, w, s.workers[w])
    ensures BrokerOk(m, DoIngress(c, s, w)) && DoIngress(c, s, w).workers == Submitted(s, w).workers
    ensures DoIngress(c, s, w).broker.fatal ==> s.broker.fatal || Share(c, w) > c.batchCap
    ensures !DoIngress(c, s, w).broker.fatal ==> Flight(DoIngress(c, s, w).broker) == Flight(s.broker) + [s.workers[w].outbox[0]]
    ensures s.workers[w].outbox[0].worker == w
  {
    hide WorkerOk, DispatchOk, FlightOk, Share, Slots, Count, RequestOk, Flight;
    SubmittedKeeps(c, m, s, w);
    var taken, s' := Submitted(s, w), DoIngress(c, s, w);
    var r := s.workers[w].outbox[0];
    DispatchIgnoresPending(m, taken, s');
    FlightPush(s.broker, r);
    if s'.broker.pending == s.broker.pending {
      FlightSame(taken.broker, s'.broker);
    } else {
      FlightSame(s.broker.(pending := s.broker.pending + [r]), s'.broker);
      FlightOkPush(taken.workers, Flight(s.broker), r);
    }
  }

  lemma FlightSame(b: Broker, b': Broker)
    requires b'.dispatch == b.dispatch && b'.pending == b.pending
    ensures Flight(b') == Flight(b)
  {
  }

  lemma FlightPush(b: Broker, r: Request)
    ensures Flight(b.(pending := b.pending + [r])) == Flight(b) + [r]
  {
    hide Remaining;
    assert Remaining(b.dispatch) + (b.pending + [r]) == (Remaining(b.dispatch) + b.pending) + [r];
  }

  lemma FlightOkPush(workers: seq<Worker>, flight: seq<Request>, r: Request)
    requires FlightOk(workers, flight) && RequestOk(workers, r) && forall i :: 0 <= i < |flight| ==> flight[i].worker != r.worker
    ensures FlightOk(workers, flight + [r])
  {
    hide RequestOk;
  }

  lemma DispatchIgnoresPending(m: Machine, s: State, s': State)
    requires DispatchOk(m, s) && s'.workers == s.workers && s'.broker.dispatch == s.broker.dispatch
    ensures DispatchOk(m, s')
  {
    hide Rows, Flat;
  }

  /** A request has at least one row and no more than its worker's share. */
  lemma RequestSize(c: Config, m: Machine, w: nat, v: Worker)
    requires Count(c) > 0 && WorkerOk(c, m, w, v) && v.phase.Waiting?
    ensures 0 < |SlotsOf(v.phase.needs)| <= Share(c, w)
  {
    hide OnSolo, Suspended, Share, Slots, Count, SeatIds, TaskIds, ReportIds;
    NeedsCount(v.seats, v.phase.needs);
    SeatIdsCount(v.seats);
  }

  lemma TakeBatchKeeps(c: Config, m: Machine, s: State, k: nat)
    requires BrokerOk(m, s) && s.broker.dispatch.Idle? && IsBatch(s.broker.pending, c.batchCap, k)
    ensures BrokerOk(m, DoTakeBatch(s, k)) && Flight(DoTakeBatch(s, k).broker) == Flight(s.broker)
  {
    assert Flight(s.broker) == s.broker.pending;
    assert s.broker.pending == s.broker.pending[..k] + s.broker.pending[k..];
    assert Flight(DoTakeBatch(s, k).broker) == s.broker.pending;
  }

  /** Every row of a batch in dispatch is a written row of a waiting worker, and its output row exists. */
  lemma RowsInRange(c: Config, m: Machine, s: State, at: (nat, nat))
    requires Count(c) > 0 && |s.workers| == Count(c) && BrokerOk(m, s)
    requires forall w :: 0 <= w < |s.workers| ==> WorkerOk(c, m, w, s.workers[w])
    requires at in Flat(Remaining(s.broker.dispatch))
    ensures InputAt(s, at).Some? && OutputAt(s, at).Some?
  {
    hide OnSolo, Suspended, Share, Slots, Count, SeatIds, TaskIds, ReportIds, DispatchOk, Flat;
    var batch := Remaining(s.broker.dispatch);
    InFlat(batch, at);
    var i :| 0 <= i < |batch| && batch[i].worker == at.0 && at.1 in batch[i].slots;
    assert Flight(s.broker)[i] == batch[i];
    assert RequestOk(s.workers, batch[i]);
    var v := s.workers[at.0];
    assert WorkerOk(c, m, at.0, v);
    var j :| 0 <= j < |batch[i].slots| && batch[i].slots[j] == at.1;
    assert Hanging(m, v.seats, v.phase.needs[j]);
  }

  lemma GatherKeeps(c: Config, m: Machine, s: State)
    requires Count(c) > 0 && |s.workers| == Count(c) && BrokerOk(m, s)
    requires forall w :: 0 <= w < |s.workers| ==> WorkerOk(c, m, w, s.workers[w])
    requires s.broker.dispatch.Gathering? && |s.broker.dispatch.staging| < Rows(s.broker.dispatch.batch)
    ensures BrokerOk(m, DoGather(s)) && DoGather(s).workers == s.workers && Flight(DoGather(s).broker) == Flight(s.broker)
    ensures DoGather(s).broker.fatal == s.broker.fatal
  {
    hide WorkerOk, Rows, FlightOk, Share, Slots, Count;
    var d := s.broker.dispatch;
    var at := Flat(d.batch)[|d.staging|];
    assert at in Flat(d.batch);
    RowsInRange(c, m, s, at);
    var s' := DoGather(s);
    forall k | 0 <= k < |s'.broker.dispatch.staging| ensures InputAt(s', Flat(d.batch)[k]) == Some(s'.broker.dispatch.staging[k]) {
      assert InputAt(s', Flat(d.batch)[k]) == InputAt(s, Flat(d.batch)[k]);
    }
  }

  lemma InferKeeps(m: Machine, s: State)
    requires BrokerOk(m, s) && s.broker.dispatch.Gathering? && |s.broker.dispatch.staging| >= Rows(s.broker.dispatch.batch)
    ensures BrokerOk(m, DoInfer(m, s)) && Flight(DoInfer(m, s).broker) == Flight(s.broker)
  {
    hide FlightOk, Rows;
    var s' := DoInfer(m, s);
    var d := s.broker.dispatch;
    forall k | 0 <= k < |d.staging| ensures AnsweredAt(m, s', Flat(d.batch)[k], s'.broker.dispatch.results[k]) {
      assert InputAt(s', Flat(d.batch)[k]) == InputAt(s, Flat(d.batch)[k]);
    }
  }

  lemma BatchPart(m: Machine, s: State, i: nat)
    requires BrokerOk(m, s) && i < |Remaining(s.broker.dispatch)|
    ensures RequestOk(s.workers, Remaining(s.broker.dispatch)[i])
    ensures forall j :: 0 <= j < i ==> Remaining(s.broker.dispatch)[j].worker != Remaining(s.broker.dispatch)[i].worker
  {
    hide DispatchOk, RequestOk;
    var batch := Remaining(s.broker.dispatch);
    assert forall j :: 0 <= j < |batch| ==> Flight(s.broker)[j] == batch[j];
  }

  /** No two rows of a batch share a place in the shared tensors. */
  lemma FlatDistinct(c: Config, m: Machine, s: State, k: nat, l: nat)
    requires Count(c) > 0 && |s.workers| == Count(c) && BrokerOk(m, s)
    requires forall w :: 0 <= w < |s.workers| ==> WorkerOk(c, m, w, s.workers[w])
    requires k < l < Rows(Remaining(s.broker.dispatch))
    ensures Flat(Remaining(s.broker.dispatch))[k] != Flat(Remaining(s.broker.dispatch))[l]
  {
    hide DispatchOk, Flat, Rows, OnSolo, Suspended, Share, Slots, Count, FlightOk;
    var batch := Remaining(s.broker.dispatch);
    var i, j := FlatIndex(batch, k);
    var i', j' := FlatIndex(batch, l);
    BatchPart(m, s, i);
    BatchPart(m, s, i');
    if i == i' {
      var w := batch[i].worker;
      assert WorkerOk(c, m, w, s.workers[w]);
      var needs := s.workers[w].phase.needs;
      assert needs[j].slot != needs[j'].slot;
    }
  }

  lemma ScatterKeeps(c: Config, m: Machine, s: State)
    requires Count(c) > 0 && |s.workers| == Count(c) && BrokerOk(m, s)
    requires forall w :: 0 <= w < |s.workers| ==> WorkerOk(c, m, w, s.workers[w])
    requires s.broker.dispatch.Scattering? && s.broker.dispatch.offset < Rows(s.broker.dispatch.batch)
    ensures BrokerOk(m, DoScatter(s)) && Flight(DoScatter(s).broker) == Flight(s.broker) && DoScatter(s).broker.fatal == s.broker.fatal
    ensures |DoScatter(s).workers| == |s.workers|
    ensures forall w :: 0 <= w < |s.workers| ==> WorkerOk(c, m, w, DoScatter(s).workers[w]) && SameButOutputs(s.workers[w], DoScatter(s).workers[w])
  {
    hide WorkerOk, Rows, Flat, Share, Slots, Count, SlotsOf;
    var d := s.broker.dispatch;
    var at := Flat(d.batch)[d.offset];
    assert at in Flat(d.batch);
    RowsInRange(c, m, s, at);
    var s' := DoScatter(s);
    var (w, slot) := at;
    forall k: nat | k < Rows(d.batch) && k != d.offset ensures Flat(d.batch)[k] != at {
      if k < d.offset {
        FlatDistinct(c, m, s, k, d.offset);
      } else {
        FlatDistinct(c, m, s, d.offset, k);
      }
    }
    forall k | 0 <= k < |d.results| ensures AnsweredAt(m, s', Flat(d.batch)[k], d.results[k]) {
      assert AnsweredAt(m, s, Flat(d.batch)[k], d.results[k]);
      assert InputAt(s', Flat(d.batch)[k]) == InputAt(s, Flat(d.batch)[k]);
    }
    forall k | 0 <= k < d.offset + 1 ensures OutputAt(s', Flat(d.batch)[k]) == Some(d.results[k]) {
      if k < d.offset {
        assert OutputAt(s', Flat(d.batch)[k]) == OutputAt(s, Flat(d.batch)[k]);
      }
    }
    ScatteredFlight(s.workers, s'.workers, Flight(s.broker));
    AtWaits(c, m, s, at);
    OutputsDoNotMatter(c, m, w, s.workers[w], s'.workers[w]);
  }

  /** A worker whose rows are in dispatch is waiting, with no response yet. */
  lemma AtWaits(c: Config, m: Machine, s: State, at: (nat, nat))
    requires BrokerOk(m, s) && at in Flat(Remaining(s.broker.dispatch))
    ensures at.0 < |s.workers| && InFlight(s.workers[at.0])
  {
    hide DispatchOk, Flat;
    var batch := Remaining(s.broker.dispatch);
    InFlat(batch, at);
    var i :| 0 <= i < |batch| && batch[i].worker == at.0 && at.1 in batch[i].slots;
    BatchPart(m, s, i);
  }

  predicate SameButOutputs(v: Worker, v': Worker) {
    |v'.outputs| == |v.outputs| && v' == v.(outputs := v'.outputs)
  }

  lemma ScatteredFlight(workers: seq<Worker>, workers': seq<Worker>, flight: seq<Request>)
    requires FlightOk(workers, flight) && |workers'| == |workers|
    requires forall w :: 0 <= w < |workers| ==> SameButOutputs(workers[w], workers'[w])
    ensures FlightOk(workers', flight)
  {
    hide SlotsOf;
    forall i | 0 <= i < |flight| ensures RequestOk(workers', flight[i]) {
      assert RequestOk(workers, flight[i]);
    }
  }

  /** Until the response is there, a waiting worker does not depend on its output rows. */
  lemma OutputsDoNotMatter(c: Config, m: Machine, w: nat, v: Worker, v': Worker)
    requires Count(c) > 0 && WorkerOk(c, m, w, v) && InFlight(v) && SameButOutputs(v, v')
    ensures WorkerOk(c, m, w, v')
  {
    hide OnSolo, Suspended, Share, Slots, Count, SeatIds, TaskIds, ReportIds, SlotsOf;
  }

  lemma FinishKeeps(m: Machine, s: State)
    requires BrokerOk(m, s) && s.broker.dispatch.Scattering? && s.broker.dispatch.offset >= Rows(s.broker.dispatch.batch)
    ensures BrokerOk(m, s.(broker := s.broker.(dispatch := Responding(s.broker.dispatch.batch))))
  {
    hide FlightOk, Rows;
    var d := s.broker.dispatch;
    var s' := s.(broker := s.broker.(dispatch := Responding(d.batch)));
    forall at | at in Flat(d.batch) ensures OutputAt(s', at).Some? && AnsweredAt(m, s', at, OutputAt(s', at).value) {
      var k :| 0 <= k < |Flat(d.batch)| && Flat(d.batch)[k] == at;
      assert AnsweredAt(m, s, Flat(d.batch)[k], d.results[k]);
      assert OutputAt(s, Flat(d.batch)[k]) == Some(d.results[k]);
      assert InputAt(s', at) == InputAt(s, at) && OutputAt(s', at) == OutputAt(s, at);
    }
  }

  lemma FlatTail(batch: seq<Request>, at: (nat, nat))
    requires batch != []
    ensures at in Flat(batch[1..]) ==> at in Flat(batch)
  {
    InFlat(batch, at);
    InFlat(batch[1..], at);
    if at in Flat(batch[1..]) {
      var i :| 0 <= i < |batch[1..]| && batch[1..][i].worker == at.0 && at.1 in batch[1..][i].slots;
      assert batch[i + 1] == batch[1..][i];
    }
  }

  lemma RespondKeeps(c: Config, m: Machine, s: State)
    requires Count(c) > 0 && |s.workers| == Count(c) && BrokerOk(m, s)
    requires forall w :: 0 <= w < |s.workers| ==> WorkerOk(c, m, w, s.workers[w])
    requires s.broker.dispatch.Responding? && s.broker.dispatch.batch != []
    ensures BrokerOk(m, DoRespond(s)) && DoRespond(s).broker.fatal == s.broker.fatal && |DoRespond(s).workers| == |s.workers|
    ensures Flight(DoRespond(s).broker) == Flight(s.broker)[1..]
    ensures var w := s.broker.dispatch.batch[0].worker;
      && w < |s.workers| && DoRespond(s).workers == s.workers[w := DoRespond(s).workers[w]]
      && WorkerOk(c, m, w, DoRespond(s).workers[w]) && SameButResponses(s.workers[w], DoRespond(s).workers[w])
      && !InFlight(DoRespond(s).workers[w]) && w == Flight(s.broker)[0].worker
  {
    hide WorkerOk, Rows, Flat, Share, Slots, Count, SlotsOf, DispatchOk, SameButResponses;
    var batch := s.broker.dispatch.batch;
    var r := batch[0];
    var w := r.worker;
    BatchPart(m, s, 0);
    var v, s' := s.workers[w], DoRespond(s);
    var flight := Flight(s.broker);
    assert flight[0] == r;
    assert Flight(s'.broker) == flight[1..];
    forall i | 0 <= i < |flight[1..]| ensures RequestOk(s'.workers, flight[1..][i]) && flight[1..][i].worker != w {
      assert RequestOk(s.workers, flight[i + 1]) && flight[0].worker != flight[i + 1].worker;
    }
    ResponseReady(c, m, s);
    RespondedDispatch(m, s);
  }

  predicate SameButResponses(v: Worker, v': Worker) {
    v' == v.(responses := v'.responses)
  }

  lemma ResponseReady(c: Config, m: Machine, s: State)
    requires Count(c) > 0 && |s.workers| == Count(c) && BrokerOk(m, s)
    requires forall w :: 0 <= w < |s.workers| ==> WorkerOk(c, m, w, s.workers[w])
    requires s.broker.dispatch.Responding? && s.broker.dispatch.batch != []
    ensures var w := s.broker.dispatch.batch[0].worker;
      && w < |s.workers| && WorkerOk(c, m, w, DoRespond(s).workers[w]) && SameButResponses(s.workers[w], DoRespond(s).workers[w])
  {
    hide Rows, Flat, OnSolo, Suspended, Share, Slots, Count, SeatIds, TaskIds, ReportIds, FlightOk;
    var batch := s.broker.dispatch.batch;
    var r := batch[0];
    BatchPart(m, s, 0);
    var v := s.workers[r.worker];
    assert WorkerOk(c, m, r.worker, v);
    var needs := v.phase.needs;
    forall i | 0 <= i < |needs| ensures needs[i].slot < |v.outputs| && v.outputs[needs[i].slot] == m.infer(needs[i].row) {
      var at := (r.worker, needs[i].slot);
      assert r.slots[i] == needs[i].slot;
      InFlat(batch, at);
      assert batch[0].worker == at.0 && at.1 in batch[0].slots;
      assert AnsweredAt(m, s, at, OutputAt(s, at).value);
    }
  }

  lemma RespondedDispatch(m: Machine, s: State)
    requires BrokerOk(m, s) && s.broker.dispatch.Responding? && s.broker.dispatch.batch != []
    ensures DispatchOk(m, DoRespond(s))
  {
    hide Rows, Flat, FlightOk;
    var batch := s.broker.dispatch.batch;
    BatchPart(m, s, 0);
    var s' := DoRespond(s);
    forall at | at in Flat(batch[1..]) ensures OutputAt(s', at).Some? && AnsweredAt(m, s', at, OutputAt(s', at).value) {
      FlatTail(batch, at);
      assert OutputAt(s, at).Some? && AnsweredAt(m, s, at, OutputAt(s, at).value);
      assert InputAt(s', at) == InputAt(s, at) && OutputAt(s', at) == OutputAt(s, at);
    }
  }
}
