/** The training supervisor over its durable files, one write at a time, with the process able to die before any of them. */
module Supervisor {
  import opened Options
  import C = ArtifactCatalog
  import opened GenerationCommit
  import opened CommitRecovery
  import opened CommitHistory
  import opened SupervisorSteps

  function Prepended(done: seq<C.Content>, r: Reconciled): Reconciled {
    match r
    case Reconciled(catalogs, content) => Reconciled(done + catalogs, content)
    case Unreconciled(written, refusal) => Unreconciled(done + written, refusal)
  }

  /** One life of the process: what happens to it, how many writes it has, and what it was started for. */
  datatype Life = Life(signals: seq<Signal>, writesLeft: nat, resume: bool, maxGenerations: Option<nat>)

  class Supervisor {
    const spec: Spec
    const resumable: bool
    const arenaConfigured: bool
    var journal: map<nat, Tx>
    var catalog: C.Content
    var runtime: Runtime
    var manifest: Manifest
    var results: map<nat, DriverResult>
    var files: map<Path, C.File>
    var signals: seq<Signal>
    /** The operator's durable stop request. */
    var stopRequested: bool
    /** Durable writes until the process dies. */
    var writesLeft: nat

    function Disk(): Disk
      reads this
    {
      GenerationCommit.Disk(journal, catalog, runtime, manifest, results, files)
    }

    function Now(): Moment
      reads this
    {
      Moment(Disk(), signals, stopRequested, writesLeft)
    }

    function Policy(): SupervisorSteps.Policy {
      SupervisorSteps.Policy(spec, resumable, arenaConfigured)
    }

    constructor (spec: Spec, resumable: bool, arenaConfigured: bool, origin: nat, signals: seq<Signal>, writesLeft: nat)
      ensures Disk() == CommitHistory.Created(origin) && LineageInv(this.spec, Disk())
    {
      this.spec, this.resumable, this.arenaConfigured := spec, resumable, arenaConfigured;
      this.signals, this.writesLeft, stopRequested := signals, writesLeft, false;
      journal, results, files := map[], map[], map[];
      catalog := C.Content(map[], map[]);
      runtime := Runtime(GenerationCommit.Created, origin, origin);
      manifest := Manifest(origin, C.Content(map[], map[]), map[], {});
      new;
      CreatedInv(this.spec, origin);
    }

    // ----- the durable writes -----

    method PutTx(g: nat, tx: Tx) returns (alive: bool)
      modifies this`journal, this`writesLeft
      ensures Reached(if alive then Finished else Down, Now()) == Wrote(old(Now()), WriteTx(old(Disk()), g, tx))
    {
      alive := writesLeft > 0;
      if alive {
        journal := journal[g := tx];
        writesLeft := writesLeft - 1;
      }
    }

    method PutCatalog(content: C.Content) returns (alive: bool)
      modifies this`catalog, this`writesLeft
      ensures Reached(if alive then Finished else Down, Now()) == Wrote(old(Now()), WriteCatalog(old(Disk()), content))
    {
      alive := writesLeft > 0;
      if alive {
        catalog := content;
        writesLeft := writesLeft - 1;
      }
    }

    method PutRuntime(state: Runtime) returns (alive: bool)
      modifies this`runtime, this`writesLeft
      ensures Reached(if alive then Finished else Down, Now()) == Wrote(old(Now()), WriteRuntime(old(Disk()), state))
    {
      alive := writesLeft > 0;
      if alive {
        runtime := state;
        writesLeft := writesLeft - 1;
      }
    }

    method PutManifest(m: Manifest) returns (alive: bool)
      modifies this`manifest, this`writesLeft
      ensures Reached(if alive then Finished else Down, Now()) == Wrote(old(Now()), WriteManifest(old(Disk()), m))
    {
      alive := writesLeft > 0;
      if alive {
        manifest := m;
        writesLeft := writesLeft - 1;
      }
    }

    // ----- recovery -----

    /** One pending generation: found and compared, or registered from its result and compared. */
    method ReconcileOne(g: nat) returns (outcome: Outcome, refusal: Option<Refusal>)
      requires g in journal
      modifies this`catalog, this`writesLeft
      ensures match StepOf(spec, old(Disk()), old(catalog), g)
        case Found => outcome == Finished && Disk() == old(Disk())
        case Refuse(why) => outcome == Raised && refusal == Some(why) && Disk() == old(Disk())
        case Registers(content, agrees) =>
          if old(writesLeft) == 0 then outcome == Down && Disk() == old(Disk())
          else Disk() == WriteCatalog(old(Disk()), content) && outcome == (if agrees then Finished else Raised)
               && (!agrees ==> refusal == Some(CatalogDrift))
      ensures writesLeft == if old(writesLeft) > 0 && StepOf(spec, old(Disk()), old(catalog), g).Registers? then old(writesLeft) - 1 else old(writesLeft)
    {
      hide C.Registered, TxRecord;
      if g in catalog.generations {
        if RecordAgrees(spec, Disk(), catalog, g) {
          return Finished, None;
        }
        return Raised, Some(CatalogDrift);
      }
      if !(g in results && Validates(files, results[g]) && HashesOf(files, results[g]) == journal[g].hashes) {
        return Raised, Some(ResultDrift);
      }
      var registered := RegisterIn(spec, Disk(), catalog, g);
      if registered.Failed? {
        return Raised, Some(CatalogRefused(registered.why));
      }
      ghost var d0 := Disk();
      var alive := PutCatalog(registered.value);
      if !alive {
        return Down, None;
      }
      SameReconcile(spec, d0, Disk(), catalog, g);
      if !RecordAgrees(spec, Disk(), catalog, g) {
        return Raised, Some(CatalogDrift);
      }
      return Finished, None;
    }

    /** What is written is what the function says, up to the point where the process dies. */
    method ReconcileCatalog(pending: seq<nat>) returns (outcome: Outcome, refusal: Option<Refusal>)
      requires forall g :: g in pending ==> g in journal
      modifies this`catalog, this`writesLeft
      ensures var r := Reconcile(spec, old(Disk()), old(catalog), pending);
        && outcome == (if old(writesLeft) < |CatalogsOf(r)| then Down else if r.Reconciled? then Finished else Raised)
        && CatalogsWritten(old(Disk()), CatalogsOf(r), old(writesLeft), Disk(), writesLeft)
        && (outcome == Finished ==> catalog == r.content) && (outcome == Raised ==> refusal == Some(r.refusal))
    {
      hide StepOf, Reconcile, Prepended, Cataloging, CatalogsWritten;
      refusal := None;
      ghost var d0: GenerationCommit.Disk := Disk();
      ghost var done: seq<C.Content> := [];
      NothingDone(d0, Reconcile(spec, d0, d0.catalog, pending));
      var i := 0;
      assert pending[0..] == pending;
      while i < |pending|
        invariant 0 <= i <= |pending|
        invariant Disk() == Cataloging(d0, done) && writesLeft + |done| == old(writesLeft)
        invariant Reconcile(spec, d0, d0.catalog, pending) == Prepended(done, Reconcile(spec, d0, catalog, pending[i..]))
      {
        var g := pending[i];
        ghost var before, rest := catalog, pending[i..];
        assert g in pending && rest[0] == g && rest[1..] == pending[i + 1..];
        CatalogedOnly(d0, done);
        SameStep(spec, d0, Disk(), catalog, g);
        ReconcileSteps(spec, d0, catalog, rest);
        outcome, refusal := ReconcileOne(g);
        if outcome != Finished {
          StoppedAt(spec, d0, done, before, rest, writesLeft, Disk());
          return;
        }
        if StepOf(spec, d0, before, g).Registers? {
          OneMoreDone(d0, done, catalog, Reconcile(spec, d0, catalog, rest[1..]));
          done := done + [catalog];
        }
        i := i + 1;
      }
      assert pending[i..] == [];
      ReconcileNone(spec, d0, catalog);
      AllDone(d0, done, catalog, writesLeft);
      return Finished, None;
    }

    /** The interrupted commit is finished as the recovery function says; dying on the way leaves a prefix of its writes. */
    method RecoverInterruptedCommit() returns (outcome: Outcome, recovered: bool)
      modifies this`catalog, this`runtime, this`manifest, this`writesLeft
      ensures Reached(outcome, Now()) == Recovering(Policy(), old(Now()))
      ensures recovered <==> outcome == Finished && Recovery(spec, old(Disk())).Finish?
    {
      hide Reconcile, Pending, TransactionOk, CheckpointsOf, Recovery, Recovering, Cataloging, CatalogsWritten, CatalogsOf, AllJournaled, Consecutive;
      recovered := false;
      ghost var m0 := Now();
      var pending := Pending(Disk());
      if exists g :: g in pending && !TransactionOk(spec, journal[g]) {
        RefusedEarly(Policy(), m0);
        return Raised, false;
      }
      if !AllJournaled(Disk(), pending) {
        RefusedEarly(Policy(), m0);
        return Raised, false;
      }
      var refusal;
      outcome, refusal := ReconcileCatalog(pending);
      ReconcilingIs(Policy(), m0, Disk(), writesLeft);
      if outcome != Finished {
        return outcome, false;
      }
      if pending == [] {
        return Finished, false;
      }
      if !Consecutive(pending, manifest.last) {
        return Raised, false;
      }
      var latest := pending[|pending| - 1];
      if runtime.last > latest {
        return Raised, false;
      }
      ghost var d1: GenerationCommit.Disk := Disk();
      SameCheckpoints(m0.disk, d1, pending);
      var alive := PutRuntime(runtime.(status := RecoveryRequired, last := latest));
      if !alive {
        return Down, false;
      }
      SameCheckpoints(d1, Disk(), pending);
      alive := PutManifest(manifest.(last := latest, fingerprint := catalog, checkpoints := manifest.checkpoints + CheckpointsOf(Disk(), pending)));
      if !alive {
        return Down, false;
      }
      return Finished, true;
    }

    // ----- the training loop -----

    /** Nothing committed is lost and the whole lineage invariant holds, wherever the process stopped. */
    ghost predicate Sound(d: GenerationCommit.Disk)
      reads this
    {
      LineageInv(spec, Disk()) && Grows(d, Disk())
    }

    /** The process starts over after a death, with new things to come. */
    method Reboot(signals: seq<Signal>, writesLeft: nat)
      modifies this`signals, this`writesLeft
      ensures Disk() == old(Disk())
    {
      this.signals, this.writesLeft := signals, writesLeft;
    }

    /** The outcome of the child that is running; stop requests made meanwhile are recorded. */
    method NextSignal() returns (signal: Option<Signal>)
      modifies this`signals, this`stopRequested
      ensures signal == Coming(old(signals)) && Now() == Heard(old(Now()))
    {
      hide Heard, Coming;
      ghost var m0 := Now();
      while signals != [] && Idle(signals[0])
        invariant Heard(Now()) == Heard(m0) && Coming(signals) == Coming(m0.signals)
        decreases |signals|
      {
        PolledHeard(Now());
        stopRequested := stopRequested || signals[0] == SoftStop;
        signals := signals[1..];
      }
      HeardNow(Now());
      if signals == [] {
        return None;
      }
      signal := Some(signals[0]);
      signals := signals[1..];
    }

    /** Looks for a stop request between two units. */
    method PollStop()
      modifies this`signals, this`stopRequested
      ensures Disk() == old(Disk()) && |signals| <= |old(signals)|
      ensures stopRequested <==> old(stopRequested) || (old(signals) != [] && old(signals)[0] == SoftStop)
      ensures signals == if old(signals) != [] && Idle(old(signals)[0]) then old(signals)[1..] else old(signals)
      ensures Now() == Polled(old(Now()))
    {
      if signals != [] && Idle(signals[0]) {
        stopRequested := stopRequested || signals[0] == SoftStop;
        signals := signals[1..];
      }
    }

    /** State writes that leave the committed generation alone. */
    method SetRunStatus(status: RunStatus) returns (alive: bool)
      requires LineageInv(spec, Disk())
      modifies this`runtime, this`writesLeft
      ensures Sound(old(Disk())) && Disk() == if alive then old(Disk()).(runtime := old(runtime).(status := status)) else old(Disk())
      ensures Reached(if alive then Finished else Down, Now()) == Restated(old(Now()), status)
    {
      ghost var d: GenerationCommit.Disk := Disk();
      EventKeepsArenas(spec, d, SetStatus(status));
      EventGrows(spec, d, SetStatus(status));
      alive := PutRuntime(runtime.(status := status));
    }

    /** Manifest and catalog as the strict check on loading wants them. */
    predicate Loadable()
      reads this
    {
      manifest.fingerprint == catalog
    }

    /** The Arena of the last committed generation: recorded in the manifest only after it passed. */
    method RunArena(g: nat) returns (outcome: Outcome)
      requires LineageInv(spec, Disk()) && Loadable() && Latest(Disk()) == manifest.last == g
      modifies this
      ensures Sound(old(Disk())) && Loadable() && Latest(Disk()) == manifest.last == g && runtime.last == old(runtime.last)
      ensures Disk() == old(Disk()).(runtime := runtime, manifest := manifest)
      ensures manifest == if outcome == Finished then old(manifest).(arenas := old(manifest).arenas + {g}) else old(manifest)
      ensures outcome == Finished ==> arenaConfigured && Coming(old(signals)) == Some(ArenaPassed)
      ensures outcome == Raised ==> !arenaConfigured || (Coming(old(signals)).Some? && Coming(old(signals)) != Some(ArenaPassed))
      ensures Reached(outcome, Now()) == Judging(Policy(), old(Now()), g)
    {
      hide LineageInv, Grows, Latest;
      ghost var d0: GenerationCommit.Disk := Disk();
      GrowsSelf(d0);
      SettledStaysSettled(d0);
      if !arenaConfigured {
        return Raised;
      }
      var alive := SetRunStatus(runtime.status);
      if !alive {
        return Down;
      }
      var signal := NextSignal();
      if signal.None? {
        return Down;
      }
      if signal.value != ArenaPassed {
        return Raised;
      }
      ghost var d: GenerationCommit.Disk := Disk();
      Step(spec, d0, d, RecordArena);
      alive := PutManifest(manifest.(arenas := manifest.arenas + {g}));
      outcome := if alive then Finished else Down;
    }

    /** A due Arena that is not recorded runs before anything else. */
    method EnsurePendingArena(committed: nat) returns (outcome: Outcome)
      requires LineageInv(spec, Disk()) && Loadable() && committed == manifest.last
      modifies this
      ensures Sound(old(Disk())) && Loadable() && manifest.last == committed && runtime.last == old(runtime.last)
      ensures outcome == Finished ==> ArenaDue(spec, runtime.origin, committed) ==> committed in manifest.arenas
      ensures !ArenaDue(spec, old(runtime).origin, committed) || committed in old(manifest).arenas ==> outcome == Finished && Disk() == old(Disk())
      ensures Reached(outcome, Now()) == Catching(Policy(), old(Now()))
    {
      if !ArenaDue(spec, runtime.origin, committed) || committed in manifest.arenas {
        GrowsSelf(Disk());
        return Finished;
      }
      PendingMeansSettled(spec, Disk());
      outcome := RunArena(committed);
    }

    /** Journal, catalog, state, manifest, in this order; dying in between leaves the first writes of the tail. */
    method CommitTail(g: nat) returns (outcome: Outcome)
      requires LineageInv(spec, Disk()) && Enabled(spec, Disk(), CommitTransaction) && g == NextGeneration(Disk())
      modifies this`journal, this`catalog, this`runtime, this`manifest, this`writesLeft
      ensures Sound(old(Disk()))
      ensures Reached(outcome, Now()) == Committing(Policy(), old(Now()), g)
      ensures outcome == Finished ==> Loadable() && manifest.last == runtime.last == g && Latest(Disk()) == g
    {
      hide RegisterIn, HashesOf, Validates, CommitManifest, Tail, Grows, LineageInv;
      ghost var d0: GenerationCommit.Disk := Disk();
      TailIs(spec, d0, g);
      TailIsSound(spec, d0, g);
      var hashes := HashesOf(files, results[g]);
      var alive := PutTx(g, CommittedTx(spec, journal[g].restarts, hashes));
      if !alive {
        assert Disk() == Tail(spec, d0, g, 0);
        return Down;
      }
      assert Disk() == Tail(spec, d0, g, 1);
      var registered := RegisterIn(spec, Disk(), catalog, g);
      if registered.Failed? {
        return Raised;
      }
      alive := PutCatalog(registered.value);
      if !alive {
        return Down;
      }
      assert Disk() == Tail(spec, d0, g, 2);
      alive := PutRuntime(runtime.(last := g));
      if !alive {
        return Down;
      }
      assert Disk() == Tail(spec, d0, g, 3);
      ghost var d3: GenerationCommit.Disk := Disk();
      alive := PutManifest(CommitManifest(Disk(), g, hashes));
      if !alive {
        return Down;
      }
      assert Disk() == Tail(spec, d0, g, 4);
      CommitManifestLoads(d3, g, hashes);
      return Finished;
    }

    /** The generation transaction may be opened: nothing else is under way and no due Arena is missing. */
    ghost predicate ReadyToOpen(g: nat)
      reads this
    {
      && LineageInv(spec, Disk()) && Loadable() && Latest(Disk()) == manifest.last && g == manifest.last + 1 == runtime.last + 1
      && (ArenaDue(spec, runtime.origin, manifest.last) ==> manifest.last in manifest.arenas)
    }

    /** The transaction becomes RUNNING and the driver is started. */
    method Launch(g: nat, restarts: nat) returns (alive: bool)
      requires ReadyToOpen(g) && restarts <= spec.maxRestarts
      modifies this`journal, this`runtime, this`writesLeft
      ensures Sound(old(Disk()))
      ensures alive ==> ReadyToOpen(g) && journal == old(journal)[g := Tx(Running, restarts, spec.schema, spec.profile, map[])]
      ensures var entered := Wrote(old(Now()), WriteTx(old(Disk()), g, Tx(Running, restarts, spec.schema, spec.profile, map[])));
        Reached(if alive then Finished else Down, Now()) == if entered.outcome.Down? then entered else Wrote(entered.at, entered.at.disk)
    {
      hide LineageInv, Grows, ArenaDue;
      ghost var d0: GenerationCommit.Disk := Disk();
      GrowsSelf(d0);
      Step(spec, d0, d0, OpenTransaction(restarts));
      alive := PutTx(g, Tx(Running, restarts, spec.schema, spec.profile, map[]));
      if alive {
        ghost var d1: GenerationCommit.Disk := Disk();
        alive := SetRunStatus(runtime.status);
        GrowsOn(d0, d1, Disk());
      }
    }

    /** The driver's exit: a result is published, a failure is written down. */
    method Exit(g: nat) returns (outcome: Outcome, published: bool)
      requires ReadyToOpen(g) && Opened(Disk(), Running)
      modifies this`journal, this`results, this`files, this`signals, this`stopRequested, this`writesLeft
      ensures Sound(old(Disk())) && Attempted(outcome, published, Now()) == ExitAt(old(Now()), g)
      ensures outcome == Finished ==>
                && ReadyToOpen(g)
                && journal == (if published then old(journal) else old(journal)[g := old(journal)[g].(status := Failed)])
                && results == (if published then old(results)[g := Coming(old(signals)).value.result] else old(results))
    {
      hide LineageInv, Grows, ArenaDue;
      ghost var d0: GenerationCommit.Disk := Disk();
      GrowsSelf(d0);
      var signal := NextSignal();
      if signal.None? {
        return Down, false;
      }
      match signal.value {
        case DriverDone(result, newFiles) =>
          Step(spec, d0, d0, Publish(result, newFiles));
          results, files := results[g := result], Rewritten(Disk(), newFiles);
          assert Disk() == Apply(spec, d0, Publish(result, newFiles));
          return Finished, true;
        case DriverFailed(newFiles) =>
          LeaveFiles(g, newFiles);
          ghost var d1: GenerationCommit.Disk := Disk();
          Step(spec, d0, d1, FailTransaction);
          var alive := PutTx(g, journal[g].(status := Failed));
          return if alive then Finished else Down, false;
        case Killed(newFiles) =>
          LeaveFiles(g, newFiles);
          return Down, false;
        case _ =>
          return Down, false;
      }
    }

    /** A driver without a result leaves files behind. */
    method LeaveFiles(g: nat, newFiles: map<Path, C.File>)
      requires ReadyToOpen(g) && Opened(Disk(), Running)
      modifies this`files
      ensures Sound(old(Disk())) && ReadyToOpen(g) && files == Rewritten(old(Disk()), newFiles)
    {
      hide LineageInv, Grows, ArenaDue;
      ghost var d: GenerationCommit.Disk := Disk();
      GrowsSelf(d);
      Step(spec, d, d, WriteFiles(newFiles));
      files := Rewritten(Disk(), newFiles);
      assert Disk() == Apply(spec, d, WriteFiles(newFiles));
    }

    /** One attempt of the driver: RUNNING, then its exit. */
    method Attempt(g: nat, restarts: nat) returns (outcome: Outcome, published: bool)
      requires ReadyToOpen(g) && restarts <= spec.maxRestarts
      modifies this
      ensures Sound(old(Disk())) && Attempted(outcome, published, Now()) == AttemptAt(Policy(), old(Now()), g, restarts)
      ensures outcome == Finished ==>
                && ReadyToOpen(g)
                && journal == old(journal)[g := Tx(if published then Running else Failed, restarts, spec.schema, spec.profile, map[])]
                && results == (if published then old(results)[g := Coming(old(signals)).value.result] else old(results))
    {
      hide LineageInv, Grows, ArenaDue;
      ghost var d0: GenerationCommit.Disk := Disk();
      var alive := Launch(g, restarts);
      if !alive {
        return Down, false;
      }
      ghost var d1: GenerationCommit.Disk := Disk();
      outcome, published := Exit(g);
      GrowsOn(d0, d1, Disk());
    }

    /** Attempts with bounded automatic restarts until a driver publishes its result. */
    method Drive(g: nat, earlier: nat) returns (outcome: Outcome)
      requires ReadyToOpen(g) && earlier <= spec.maxRestarts
      modifies this
      ensures Sound(old(Disk())) && Reached(outcome, Now()) == AttemptsAt(Policy(), old(Now()), g, earlier)
      ensures outcome == Finished ==> ReadyToOpen(g) && Opened(Disk(), Running) && g in results
    {
      hide LineageInv, Grows, ArenaDue, AttemptAt;
      ghost var m0 := Now();
      GrowsSelf(m0.disk);
      var restarts: nat := earlier;
      while true
        invariant LineageInv(spec, Disk()) && Grows(m0.disk, Disk()) && ReadyToOpen(g) && restarts <= spec.maxRestarts
        invariant AttemptsAt(Policy(), m0, g, earlier) == AttemptsAt(Policy(), Now(), g, restarts)
        decreases |signals|
      {
        ghost var d: GenerationCommit.Disk := Disk();
        var published;
        outcome, published := Attempt(g, restarts);
        GrowsOn(m0.disk, d, Disk());
        if outcome != Finished || published {
          return;
        }
        if !resumable || restarts >= spec.maxRestarts {
          return Raised;
        }
        restarts := restarts + 1;
      }
    }

    /** A generation: its attempts, its validation, its commit and the Arena that is due. */
    method RunGeneration(g: nat) returns (outcome: Outcome)
      requires LineageInv(spec, Disk()) && Loadable() && g == manifest.last + 1 == runtime.last + 1
      requires ArenaDue(spec, runtime.origin, manifest.last) ==> manifest.last in manifest.arenas
      modifies this
      ensures Sound(old(Disk()))
      ensures Reached(outcome, Now()) == GenerationAt(Policy(), old(Now()), g)
      ensures outcome == Finished ==> Loadable() && manifest.last == runtime.last == g
      ensures outcome == Finished ==> g in results && results[g].healthy
      ensures outcome == Finished ==> stopRequested || (ArenaDue(spec, runtime.origin, g) ==> g in manifest.arenas)
      ensures g in old(journal) && (!resumable || old(journal)[g].status == Committed) ==> outcome == Raised && Disk() == old(Disk())
    {
      hide LineageInv, Grows, ArenaDue, Validates, HashesOf, AttemptsAt, Committing, Judging;
      ghost var d0: GenerationCommit.Disk := Disk();
      GrowsSelf(d0);
      RestartsBounded(spec, d0);
      var restarts: nat := 0;
      if g in journal {
        restarts := journal[g].restarts;
        if journal[g].status == Committed || !resumable {
          return Raised;
        }
      }
      outcome := Drive(g, restarts);
      if outcome != Finished {
        return;
      }
      if !Validates(files, results[g]) {
        return Raised;
      }
      ghost var d2: GenerationCommit.Disk := Disk();
      outcome := CommitTail(g);
      GrowsOn(d0, d2, Disk());
      if outcome != Finished {
        return;
      }
      if !results[g].healthy {
        return Raised;
      }
      PollStop();
      if !stopRequested && ArenaDue(spec, runtime.origin, g) {
        ghost var d3: GenerationCommit.Disk := Disk();
        outcome := RunArena(g);
        GrowsOn(d0, d3, Disk());
      }
    }

    /** The state and the manifest at the end of a run. */
    method End(status: RunStatus) returns (outcome: Outcome)
      requires LineageInv(spec, Disk())
      modifies this`runtime, this`manifest, this`writesLeft
      ensures Sound(old(Disk())) && Reached(outcome, Now()) == Ending(old(Now()), status)
      ensures manifest == old(manifest) && runtime == (if outcome == Finished then old(runtime).(status := status) else runtime)
      ensures runtime.last == old(runtime.last)
    {
      hide LineageInv, Grows;
      var alive := SetRunStatus(status);
      if alive {
        alive := PutManifest(manifest);
      }
      return if alive then Finished else Down;
    }

    /** One turn of the run loop: a stop request first, then a pending Arena, the generation limit, a generation. */
    method TakeTurn(maxGenerations: Option<nat>) returns (over: bool, outcome: Outcome)
      requires LineageInv(spec, Disk()) && Loadable() && runtime.last == manifest.last
      modifies this
      ensures Sound(old(Disk())) && (if over then Over(Reached(outcome, Now())) else Again(Now())) == TurnAt(Policy(), maxGenerations, old(Now()))
      ensures !over || outcome == Finished ==> Loadable() && runtime.last == manifest.last
      ensures over && outcome == Finished ==> runtime.status in {SoftStopped, Completed} && (runtime.status == SoftStopped ==> stopRequested)
      ensures over && outcome == Finished && runtime.status == Completed ==>
                && maxGenerations.Some? && manifest.last >= maxGenerations.value
                && (ArenaDue(spec, runtime.origin, manifest.last) ==> manifest.last in manifest.arenas)
      ensures old(stopRequested) ==> over && stopRequested && journal == old(journal) && manifest.arenas == old(manifest).arenas
    {
      hide LineageInv, Grows, ArenaDue, GenerationAt, Catching, Polled, Ending, Restated;
      ghost var d0: GenerationCommit.Disk := Disk();
      var committed := runtime.last;
      PollStop();
      if stopRequested {
        outcome := End(SoftStopped);
        return true, outcome;
      }
      outcome := EnsurePendingArena(committed);
      ghost var d: GenerationCommit.Disk := Disk();
      if outcome == Finished && maxGenerations.Some? && committed >= maxGenerations.value {
        outcome := End(Completed);
        GrowsOn(d0, d, Disk());
        return true, outcome;
      }
      if outcome == Finished {
        outcome := RunGeneration(committed + 1);
        GrowsOn(d0, d, Disk());
      }
      if outcome == Raised {
        d := Disk();
        var alive := SetRunStatus(RecoveryRequired);
        GrowsOn(d0, d, Disk());
      }
      return outcome != Finished, outcome;
    }

    /** The run loop: recovery first, then stop requests, pending Arenas and generations, one safe unit at a time. */
    method Run(maxGenerations: Option<nat>) returns (outcome: Outcome)
      requires LineageInv(spec, Disk())
      modifies this
      ensures Sound(old(Disk())) && Reached(outcome, Now()) == RunAt(Policy(), maxGenerations, old(Now()))
      ensures outcome == Finished ==> Loadable() && runtime.last == manifest.last && runtime.status in {SoftStopped, Completed}
      ensures outcome == Finished && runtime.status == SoftStopped ==> stopRequested
      ensures outcome == Finished && runtime.status == Completed ==>
                && maxGenerations.Some? && manifest.last >= maxGenerations.value
                && (ArenaDue(spec, runtime.origin, manifest.last) ==> manifest.last in manifest.arenas)
      ensures old(stopRequested) ==> journal == old(journal) && manifest.arenas == old(manifest).arenas
    {
      hide LineageInv, Grows, ArenaDue, TurnAt, Recovery, WriteCount, AfterRecovery, Written;
      ghost var d0: GenerationCommit.Disk := Disk();
      ghost var m0 := Now();
      var recovered;
      outcome, recovered := RecoverInterruptedCommit();
      RecoveryIsSound(spec, d0, Disk());
      if outcome != Finished {
        return;
      }
      if !Loadable() || runtime.status in {SoftStopped, Completed, RecoveryRequired} {
        return Raised;
      }
      LoadableIsSettled(spec, Disk());
      ghost var d1: GenerationCommit.Disk := Disk();
      var alive := SetRunStatus(Active);
      GrowsOn(d0, d1, Disk());
      if !alive {
        return Down;
      }
      while true
        invariant LineageInv(spec, Disk()) && Grows(d0, Disk()) && Loadable() && runtime.last == manifest.last
        invariant old(stopRequested) ==> stopRequested && journal == old(journal) && manifest.arenas == old(manifest).arenas
        invariant RunAt(Policy(), maxGenerations, m0) == LoopAt(Policy(), maxGenerations, Now())
        decreases |signals|
      {
        ghost var d: GenerationCommit.Disk := Disk();
        var over;
        over, outcome := TakeTurn(maxGenerations);
        GrowsOn(d0, d, Disk());
        if over {
          return;
        }
      }
    }

    /** Reopens the lineage after a stop: recovery, the strict load, then the state back to CREATED. */
    method PrepareResume() returns (outcome: Outcome)
      requires LineageInv(spec, Disk())
      modifies this
      ensures Sound(old(Disk())) && Reached(outcome, Now()) == ResumeAt(Policy(), old(Now()))
      ensures outcome == Finished ==> Agreed(spec, Disk()) || Latest(Disk()) > 9999
      ensures outcome == Finished ==> Loadable() && !stopRequested && runtime.status == GenerationCommit.Created
    {
      hide LineageInv, Grows, Agreed, Recovery, AfterRecovery, Latest, WriteCount, Written;
      ghost var d0: GenerationCommit.Disk := Disk();
      var recovered;
      outcome, recovered := RecoverInterruptedCommit();
      RecoveryIsSound(spec, d0, Disk());
      if outcome != Finished {
        return;
      }
      RecoveredAgrees(spec, d0);
      if !Loadable() || runtime.status == Active {
        return Raised;
      }
      stopRequested := false;
      ghost var d1: GenerationCommit.Disk := Disk();
      var alive := SetRunStatus(GenerationCommit.Created);
      GrowsOn(d0, d1, Disk());
      AgreedIgnoresStatus(spec, d1, Disk());
      outcome := if alive then Finished else Down;
    }

    /** All the lives of the process, each ending in whatever way: after them the lineage is sound. */
    method Live(lives: seq<Life>)
      requires LineageInv(spec, Disk())
      modifies this
      ensures Sound(old(Disk()))
    {
      hide LineageInv, Grows;
      ghost var d0: GenerationCommit.Disk := Disk();
      GrowsSelf(d0);
      for i := 0 to |lives|
        invariant Sound(d0)
      {
        ghost var d: GenerationCommit.Disk := Disk();
        Reboot(lives[i].signals, lives[i].writesLeft);
        var outcome := Finished;
        if lives[i].resume {
          outcome := PrepareResume();
          GrowsOn(d0, d, Disk());
          d := Disk();
        }
        if outcome == Finished {
          outcome := Run(lives[i].maxGenerations);
          GrowsOn(d0, d, Disk());
        }
      }
    }
  }

  lemma HeardNow(s: Moment)
    requires s.signals == [] || !Idle(s.signals[0])
    ensures Coming(s.signals) == (if s.signals == [] then None else Some(s.signals[0]))
    ensures Heard(s) == s.(signals := if s.signals == [] then [] else s.signals[1..])
  {
    assert s.signals[..0] == [];
  }

  lemma AgreedIgnoresStatus(spec: Spec, d: Disk, d': Disk)
    requires d' == d.(runtime := d'.runtime) && d'.runtime.last == d.runtime.last && d'.runtime.origin == d.runtime.origin
    ensures Agreed(spec, d) ==> Agreed(spec, d')
    ensures Latest(d') == Latest(d)
  {
    hide Inv;
    if Agreed(spec, d) {
      StatusKeeps(spec, d, d'.runtime.status);
    }
  }

  lemma SettledStaysSettled(d: Disk)
    ensures forall d': Disk :: d'.journal == d.journal && d'.manifest.last == d.manifest.last ==> Latest(d') == Latest(d)
  {
  }

  lemma RestartsBounded(spec: Spec, d: Disk)
    requires LineageInv(spec, d)
    ensures forall g :: g in d.journal ==> d.journal[g].restarts <= spec.maxRestarts
  {
    hide ArenasFirst, NoneBeyond;
    NextRestarts(spec, d);
  }

  /** However far recovery got, the lineage is sound. */
  lemma RecoveryIsSound(spec: Spec, d: Disk, d': Disk)
    requires LineageInv(spec, d)
    requires var r := Recovery(spec, d); (d' == AfterRecovery(d, r)) || exists k :: 0 <= k <= WriteCount(r) && d' == Written(d, r, k)
    ensures LineageInv(spec, d') && Grows(d, d') && d'.journal == d.journal && d'.manifest.arenas == d.manifest.arenas
  {
    hide Inv, Recovery, AfterWrites;
    LineageParts(spec, d);
    var r := Recovery(spec, d);
    RefusedWritesNothing(spec, d);
    if r.Finish? {
      var k: nat :| k <= WriteCount(r) && d' == AfterWrites(d, r, k);
      RecoveryPrefix(spec, d, k);
      RecoveryKeepsRest(spec, d, k);
    } else {
      assert d' == d;
      GrowsSelf(d);
    }
  }

  lemma RefusedWritesNothing(spec: Spec, d: Disk)
    requires Inv(spec, d)
    ensures Recovery(spec, d).Refused? ==> Recovery(spec, d).written == []
  {
    hide Inv, RegisterIn, Reconcile, TransactionOk, CheckpointsOf, Pending;
    InvJournal(spec, d);
    PendingIs(spec, d);
    if Latest(d) > d.manifest.last && Latest(d) <= 9999 {
      RecoveryIs(spec, d);
    } else {
      ReconcileNone(spec, d, d.catalog);
    }
  }

  lemma InvJournal(spec: Spec, d: Disk)
    requires Inv(spec, d)
    ensures JournalInv(spec, d)
  {
  }

  lemma RecoveryKeepsRest(spec: Spec, d: Disk, k: nat)
    requires Recovery(spec, d).Finish? && k <= WriteCount(Recovery(spec, d))
    ensures var d' := AfterWrites(d, Recovery(spec, d), k);
      d'.runtime.origin == d.runtime.origin && d'.manifest.arenas == d.manifest.arenas && d'.manifest.last >= d.manifest.last && d'.journal == d.journal
  {
    hide Reconcile, TransactionOk, CheckpointsOf;
    PendingAhead(d, d.manifest.last + 1);
  }

  lemma {:induction false} PendingAhead(d: Disk, g: nat)
    ensures forall p :: p in PendingFrom(d, g) ==> p >= g
    decreases 10000 - g
  {
    if g <= 9999 {
      PendingAhead(d, g + 1);
    }
  }

  /** A manifest that loads means the state is where the manifest is. */
  lemma LoadableIsSettled(spec: Spec, d: Disk)
    requires LineageInv(spec, d) && d.manifest.fingerprint == d.catalog
    ensures d.runtime.last == d.manifest.last
  {
    hide JournalInv, SettledInv, ArenasFirst, NoneBeyond, RegisterIn, Validates, HashesOf;
    LineageParts(spec, d);
    if Latest(d) > d.manifest.last {
      UnderWayFacts(spec, d);
    }
  }

  lemma RecoveredAgrees(spec: Spec, d: Disk)
    requires LineageInv(spec, d) && !Recovery(spec, d).Refused?
    ensures Agreed(spec, AfterRecovery(d, Recovery(spec, d))) || Latest(AfterRecovery(d, Recovery(spec, d))) > 9999
  {
    hide Inv, Recovery, RegisterIn, WriteCount, AfterWrites;
    LineageParts(spec, d);
    if Latest(d) > d.manifest.last && Latest(d) <= 9999 {
      RecoveryIs(spec, d);
      RecoveryPrefix(spec, d, WriteCount(Recovery(spec, d)));
    } else if Latest(d) == d.manifest.last {
      SecondRecoveryIsIdle(spec, d);
    } else {
      NothingBeyond9999(spec, d);
    }
  }

  ghost predicate Grows(d: Disk, d': Disk) {
    && d'.runtime.origin == d.runtime.origin && Latest(d) <= Latest(d') && d.manifest.arenas <= d'.manifest.arenas
    && forall h :: h in d.journal && d.journal[h].status == Committed ==> h in d'.journal && d'.journal[h] == d.journal[h]
  }

  lemma GrowsSelf(d: Disk)
    ensures Grows(d, d)
  {
  }

  lemma GrowsOn(d: Disk, d': Disk, d'': Disk)
    requires Grows(d, d') && Grows(d', d'')
    ensures Grows(d, d'')
  {
    hide Latest;
  }

  lemma EventGrows(spec: Spec, d: Disk, e: Event)
    requires LineageInv(spec, d) && Enabled(spec, d, e)
    ensures Grows(d, Apply(spec, d, e))
  {
    hide Inv, RegisterIn, Validates, HashesOf, CheckpointsIn;
    LineageParts(spec, d);
    EventKeeps(spec, d, e);
    CommittedKept(spec, d, e);
  }

  lemma CommittedKept(spec: Spec, d: Disk, e: Event)
    requires Inv(spec, d) && Enabled(spec, d, e)
    ensures forall h :: h in d.journal && d.journal[h].status == Committed ==>
              h in Apply(spec, d, e).journal && Apply(spec, d, e).journal[h] == d.journal[h]
    ensures d.manifest.arenas <= Apply(spec, d, e).manifest.arenas && Apply(spec, d, e).runtime.origin == d.runtime.origin
  {
    hide SettledInv, UnderWay, RegisterIn, Validates, HashesOf, CheckpointsIn, TransactionOk;
  }

  /** A pending Arena of the last generation means nothing was opened after it. */
  lemma PendingMeansSettled(spec: Spec, d: Disk)
    requires LineageInv(spec, d) && ArenaDue(spec, d.runtime.origin, d.manifest.last) && d.manifest.last !in d.manifest.arenas
    ensures Latest(d) == d.manifest.last
  {
    hide Inv;
  }

  lemma TailIs(spec: Spec, d: Disk, g: nat)
    requires g in d.journal && g in d.results
    ensures var hashes := HashesOf(d.files, d.results[g]);
      var d1 := WriteTx(d, g, CommittedTx(spec, d.journal[g].restarts, hashes));
      && Tail(spec, d, g, 0) == d && Tail(spec, d, g, 1) == d1
      && match RegisterIn(spec, d1, d.catalog, g)
         case Failed(_) => true
         case Ok(content) =>
           var d2 := WriteCatalog(d1, content);
           var d3 := WriteRuntime(d2, d.runtime.(last := g));
           Tail(spec, d, g, 2) == d2 && Tail(spec, d, g, 3) == d3 && Tail(spec, d, g, 4) == WriteManifest(d3, CommitManifest(d3, g, hashes))
  {
    hide RegisterIn, HashesOf, CommitManifest;
  }

  lemma CommitLatest(spec: Spec, d: Disk)
    requires LineageInv(spec, d) && Enabled(spec, d, CommitTransaction)
    ensures Latest(Apply(spec, d, CommitTransaction)) == NextGeneration(d)
  {
    hide Inv, RegisterIn, Validates, HashesOf;
  }

  /** Every disk the tail passes through is sound, and the last one is settled. */
  lemma TailIsSound(spec: Spec, d: Disk, g: nat)
    requires LineageInv(spec, d) && Enabled(spec, d, CommitTransaction) && g == NextGeneration(d)
    ensures forall k: nat :: k <= 4 ==> LineageInv(spec, Tail(spec, d, g, k)) && Grows(d, Tail(spec, d, g, k))
    ensures RegisterIn(spec, Tail(spec, d, g, 1), d.catalog, g).Ok? ==> Latest(Tail(spec, d, g, 4)) == g
  {
    hide RegisterIn, HashesOf, Validates, CommitManifest, LineageInv, Grows;
    TailIs(spec, d, g);
    GrowsSelf(d);
    var d1 := Tail(spec, d, g, 1);
    EventKeepsArenas(spec, d, CommitTransaction);
    EventGrows(spec, d, CommitTransaction);
    CommitLatest(spec, d);
    if RegisterIn(spec, d1, d.catalog, g).Ok? {
      CatalogedTail(spec, d, g, d1);
    } else {
      TailStuck(spec, d, g);
    }
  }

  lemma TailStuck(spec: Spec, d: Disk, g: nat)
    requires g in d.journal && g in d.results && RegisterIn(spec, Tail(spec, d, g, 1), d.catalog, g).Failed?
    ensures forall k: nat :: 0 < k <= 4 ==> Tail(spec, d, g, k) == Tail(spec, d, g, 1)
  {
    hide RegisterIn, HashesOf, CommitManifest;
    TailIs(spec, d, g);
  }

  lemma CatalogedTail(spec: Spec, d: Disk, g: nat, d1: Disk)
    requires LineageInv(spec, d) && Enabled(spec, d, CommitTransaction) && g == NextGeneration(d) && d1 == Tail(spec, d, g, 1)
    requires LineageInv(spec, d1) && Grows(d, d1) && Latest(d1) == g && RegisterIn(spec, d1, d.catalog, g).Ok?
    ensures forall k: nat :: 2 <= k <= 4 ==> LineageInv(spec, Tail(spec, d, g, k)) && Grows(d, Tail(spec, d, g, k))
    ensures Latest(Tail(spec, d, g, 4)) == g
  {
    hide RegisterIn, HashesOf, Validates, CommitManifest, LineageInv, Grows, Tail, Latest, WriteManifest;
    TailIs(spec, d, g);
    LineageParts(spec, d);
    UnopenedLatest(d);
    NotYetCataloged(spec, d);
    var d2, d3 := Tail(spec, d, g, 2), Tail(spec, d, g, 3);
    assert d1.catalog == d.catalog && d1.manifest == d.manifest;
    RegisterGoesOn(spec, d, d1, d2);
    StateGoesOn(spec, d, d1, d2, d3);
    ManifestGoesOn(spec, d, d1, d3);
  }

  lemma UnopenedLatest(d: Disk)
    requires Opened(d, Running)
    ensures Latest(d) == d.manifest.last
  {
  }

  lemma RegisterGoesOn(spec: Spec, d0: Disk, d: Disk, d': Disk)
    requires LineageInv(spec, d) && Grows(d0, d) && Latest(d) > d.manifest.last && Latest(d) in d.results && d.catalog == d.manifest.fingerprint
    requires Latest(d) in d.journal && RegisterIn(spec, d, d.catalog, Latest(d)).Ok? && d' == WriteCatalog(d, RegisterIn(spec, d, d.catalog, Latest(d)).value)
    ensures LineageInv(spec, d') && Grows(d0, d')
  {
    hide RegisterIn, LineageInv, Grows;
    Step(spec, d0, d, RegisterGeneration);
  }

  lemma StateGoesOn(spec: Spec, d0: Disk, d1: Disk, d: Disk, d': Disk)
    requires LineageInv(spec, d) && Grows(d0, d) && Latest(d1) > d1.manifest.last && Latest(d1) in d1.results && Latest(d1) in d1.journal
    requires d == WriteCatalog(d1, d.catalog) && RegisterIn(spec, d1, d1.manifest.fingerprint, Latest(d1)) == C.Ok(d.catalog)
    requires d' == WriteRuntime(d, d.runtime.(last := Latest(d1)))
    ensures LineageInv(spec, d') && Grows(d0, d')
  {
    hide RegisterIn, LineageInv, Grows;
    RegisterSame(spec, d1, d, d1.manifest.fingerprint, Latest(d1));
    Step(spec, d0, d, AdvanceState(d.runtime.status));
  }

  lemma ManifestGoesOn(spec: Spec, d0: Disk, d1: Disk, d: Disk)
    requires LineageInv(spec, d) && Grows(d0, d) && Latest(d1) > d1.manifest.last && Latest(d1) in d1.results && Latest(d1) in d1.journal
    requires d == d1.(catalog := d.catalog, runtime := d.runtime) && RegisterIn(spec, d1, d1.manifest.fingerprint, Latest(d1)) == C.Ok(d.catalog)
    requires d.runtime.last == Latest(d1)
    ensures var d' := WriteManifest(d, CommitManifest(d, Latest(d1), d1.journal[Latest(d1)].hashes));
      LineageInv(spec, d') && Grows(d0, d') && Latest(d') == Latest(d1)
  {
    hide RegisterIn, LineageInv, Grows, CommitManifest;
    RegisterSame(spec, d1, d, d1.manifest.fingerprint, Latest(d1));
    Step(spec, d0, d, AdvanceManifest);
    LineageParts(spec, d);
    ManifestWriteAgrees(spec, d);
  }

  lemma Step(spec: Spec, d0: Disk, d: Disk, e: Event)
    requires LineageInv(spec, d) && Grows(d0, d) && Enabled(spec, d, e)
    ensures LineageInv(spec, Apply(spec, d, e)) && Grows(d0, Apply(spec, d, e))
  {
    hide LineageInv, Grows, Enabled, Apply;
    EventKeepsArenas(spec, d, e);
    EventGrows(spec, d, e);
    GrowsOn(d0, d, Apply(spec, d, e));
  }

  lemma CommitManifestLoads(d: Disk, g: nat, hashes: map<Path, string>)
    ensures CommitManifest(d, g, hashes).fingerprint == d.catalog && CommitManifest(d, g, hashes).last == g
  {
  }

  /** As many of these catalogs were written as there were writes for. */
  predicate CatalogsWritten(d: Disk, catalogs: seq<C.Content>, writes: nat, d': Disk, left: nat) {
    var k := if writes < |catalogs| then writes else |catalogs|;
    d' == Cataloging(d, catalogs[..k]) && left == writes - k
  }

  /** The turn that ends the loop: refused before or after its write, or the process died instead of writing. */
  lemma StoppedAt(spec: Spec, d: Disk, done: seq<C.Content>, content: C.Content, pending: seq<nat>, left: nat, d': Disk)
    requires pending != [] && forall g :: g in pending ==> g in d.journal
    requires match StepOf(spec, d, content, pending[0])
      case Found => false
      case Refuse(_) => d' == Cataloging(d, done)
      case Registers(registered, agrees) =>
        (left == 0 && d' == Cataloging(d, done)) || (!agrees && d' == WriteCatalog(Cataloging(d, done), registered))
    ensures var r := Prepended(done, Reconcile(spec, d, content, pending));
      match StepOf(spec, d, content, pending[0])
      case Found => false
      case Refuse(why) => r == Unreconciled(done, why) && CatalogsWritten(d, CatalogsOf(r), |done| + left, d', left)
      case Registers(registered, agrees) =>
        && |CatalogsOf(r)| > |done|
        && (left == 0 && d' == Cataloging(d, done) ==> CatalogsWritten(d, CatalogsOf(r), |done|, d', 0))
        && (!agrees && d' == WriteCatalog(Cataloging(d, done), registered) ==>
              r == Unreconciled(done + [registered], CatalogDrift) && CatalogsWritten(d, CatalogsOf(r), |done| + 1 + left, d', left))
  {
    hide StepOf, Reconcile;
    ReconcileSteps(spec, d, content, pending);
    assert done + [] == done && done[..|done|] == done;
    var all := CatalogsOf(Prepended(done, Reconcile(spec, d, content, pending)));
    assert |done| <= |all| && all[..|done|] == done;
    assert all[..|all|] == all;
  }

  lemma NothingDone(d: Disk, r: Reconciled)
    ensures Cataloging(d, []) == d && Prepended([], r) == r
  {
  }

  lemma CatalogedOnly(d: Disk, done: seq<C.Content>)
    ensures Cataloging(d, done) == d.(catalog := Cataloging(d, done).catalog)
  {
  }

  lemma OneMoreDone(d: Disk, done: seq<C.Content>, content: C.Content, r: Reconciled)
    ensures Cataloging(d, done + [content]) == WriteCatalog(Cataloging(d, done), content)
    ensures Prepended(done, Prepended([content], r)) == Prepended(done + [content], r)
  {
    match r
    case Reconciled(catalogs, _) => assert done + ([content] + catalogs) == done + [content] + catalogs;
    case Unreconciled(written, _) => assert done + ([content] + written) == done + [content] + written;
  }

  lemma AllDone(d: Disk, done: seq<C.Content>, content: C.Content, left: nat)
    ensures Prepended(done, Reconciled([], content)) == Reconciled(done, content)
    ensures CatalogsOf(Reconciled(done, content)) == done
    ensures CatalogsWritten(d, done, |done| + left, Cataloging(d, done), left)
  {
    assert done[..|done|] == done;
  }

  /** One turn of the reconciliation loop. */
  datatype Turn = Found | Refuse(why: Refusal) | Registers(content: C.Content, agrees: bool)

  function StepOf(spec: Spec, d: Disk, content: C.Content, g: nat): Turn
    requires g in d.journal
  {
    if g in content.generations then (if RecordAgrees(spec, d, content, g) then Found else Refuse(CatalogDrift))
    else if !(g in d.results && Validates(d.files, d.results[g]) && HashesOf(d.files, d.results[g]) == d.journal[g].hashes) then Refuse(ResultDrift)
    else
      match RegisterIn(spec, d, content, g)
      case Failed(why) => Refuse(CatalogRefused(why))
      case Ok(registered) => Registers(registered, RecordAgrees(spec, d, registered, g))
  }

  lemma SameStep(spec: Spec, d: Disk, d': Disk, content: C.Content, g: nat)
    requires d'.journal == d.journal && d'.results == d.results && d'.files == d.files && g in d.journal
    ensures StepOf(spec, d', content, g) == StepOf(spec, d, content, g)
  {
    hide C.Registered, TxRecord;
  }

  lemma ReconcileSteps(spec: Spec, d: Disk, content: C.Content, pending: seq<nat>)
    requires pending != [] && forall g :: g in pending ==> g in d.journal
    ensures Reconcile(spec, d, content, pending) ==
            match StepOf(spec, d, content, pending[0])
            case Found => Reconcile(spec, d, content, pending[1..])
            case Refuse(why) => Unreconciled([], why)
            case Registers(registered, agrees) =>
              if agrees then Prepended([registered], Reconcile(spec, d, registered, pending[1..])) else Unreconciled([registered], CatalogDrift)
  {
    hide RecordAgrees, RegisterIn, Validates, HashesOf;
  }

  lemma ReconcileNone(spec: Spec, d: Disk, content: C.Content)
    ensures Reconcile(spec, d, content, []) == Reconciled([], content)
  {
  }

  lemma SameReconcile(spec: Spec, d: Disk, d': Disk, content: C.Content, g: nat)
    requires d'.journal == d.journal && d'.results == d.results && d'.files == d.files && g in d.journal
    ensures RecordAgrees(spec, d', content, g) == RecordAgrees(spec, d, content, g)
    ensures g in d.results ==> RegisterIn(spec, d', content, g) == RegisterIn(spec, d, content, g)
  {
    hide C.Registered;
  }

  lemma {:induction false} SameCheckpoints(d: Disk, d': Disk, pending: seq<nat>)
    requires d'.journal == d.journal && forall g :: g in pending ==> g in d.journal
    ensures CheckpointsOf(d', pending) == CheckpointsOf(d, pending)
    decreases |pending|
  {
    if pending != [] {
      SameCheckpoints(d, d', pending[1..]);
    }
  }

  ghost predicate FitForRecovery(spec: Spec, d: Disk) {
    !(exists g :: g in Pending(d) && !TransactionOk(spec, d.journal[g])) && AllJournaled(d, Pending(d))
  }

  lemma RefusedEarly(p: SupervisorSteps.Policy, s: Moment)
    requires !FitForRecovery(p.spec, s.disk)
    ensures Recovering(p, s) == Reached(Raised, s) && !Recovery(p.spec, s.disk).Finish?
  {
    hide Reconcile, Pending, TransactionOk, CheckpointsOf;
  }

  /** The recovery, step by step: the catalogs, the two checks, the state, the manifest. */
  lemma ReconcilingIs(p: SupervisorSteps.Policy, s: Moment, d1: Disk, left: nat)
    requires FitForRecovery(p.spec, s.disk)
    requires CatalogsWritten(s.disk, CatalogsOf(Reconcile(p.spec, s.disk, s.disk.catalog, Pending(s.disk))), s.writes, d1, left)
    ensures var pending := Pending(s.disk);
      var r := Reconcile(p.spec, s.disk, s.disk.catalog, pending);
      && d1 == s.disk.(catalog := d1.catalog)
      && (s.writes < |CatalogsOf(r)| ==> Recovering(p, s) == Reached(Down, s.(disk := d1, writes := left)))
      && (s.writes >= |CatalogsOf(r)| ==>
            && (r.Unreconciled? ==> Recovering(p, s) == Reached(Raised, s.(disk := d1, writes := left)) && !Recovery(p.spec, s.disk).Finish?)
            && (r.Reconciled? && pending == [] ==>
                  Recovering(p, s) == Reached(Finished, s.(disk := d1, writes := left)) && !Recovery(p.spec, s.disk).Finish?)
            && (r.Reconciled? && pending != [] ==>
                  var latest := pending[|pending| - 1];
                  if !Consecutive(pending, s.disk.manifest.last) || s.disk.runtime.last > latest
                  then Recovering(p, s) == Reached(Raised, s.(disk := d1, writes := left)) && !Recovery(p.spec, s.disk).Finish?
                  else
                    var d2 := WriteRuntime(d1, d1.runtime.(status := RecoveryRequired, last := latest));
                    var d3 := WriteManifest(d2, d1.manifest.(last := latest, fingerprint := r.content, checkpoints := d1.manifest.checkpoints + CheckpointsOf(s.disk, pending)));
                    && Recovery(p.spec, s.disk).Finish?
                    && Recovering(p, s) == if left == 0 then Reached(Down, s.(disk := d1, writes := 0))
                                           else if left == 1 then Reached(Down, s.(disk := d2, writes := 0))
                                           else Reached(Finished, s.(disk := d3, writes := left - 2))))
  {
    hide Reconcile, Pending, TransactionOk, CheckpointsOf, AllJournaled, Consecutive;
    var r := Reconcile(p.spec, s.disk, s.disk.catalog, Pending(s.disk));
    var all := CatalogsOf(r);
    assert all[..|all|] == all;
    if Pending(s.disk) == [] {
      ReconcileNone(p.spec, s.disk, s.disk.catalog);
    }
  }
}
