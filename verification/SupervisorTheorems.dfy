/** What the supervisor makes of what is to come: when a generation is committed, when the run gives up, and where it ends. */
module SupervisorTheorems {
  import opened Options
  import C = ArtifactCatalog
  import opened GenerationCommit
  import opened CommitRecovery
  import opened CommitHistory
  import opened SupervisorSteps
  import S = Supervisor

  // ----- the driver outcomes to come -----

  /** How often the driver is going to fail before anything else happens. */
  function FailuresAhead(signals: seq<Signal>): nat {
    if Coming(signals).Some? && Coming(signals).value.DriverFailed? then 1 + FailuresAhead(Beyond(signals)) else 0
  }

  /** What is to come after those failures. */
  function AfterFailures(signals: seq<Signal>): seq<Signal> {
    if Coming(signals).Some? && Coming(signals).value.DriverFailed? then AfterFailures(Beyond(signals)) else signals
  }

  /** The driver's success after its failures, if there is one. */
  function DoneAhead(signals: seq<Signal>): (done: Option<Signal>)
    ensures done.Some? ==> done.value.DriverDone?
  {
    var last := Coming(AfterFailures(signals));
    if last.Some? && last.value.DriverDone? then last else None
  }

  /** How often a generation may still be restarted. */
  function Room(p: Policy, restarts: nat): nat
    requires restarts <= p.spec.maxRestarts
  {
    if p.resumable then p.spec.maxRestarts - restarts else 0
  }

  /** The disk after a driver published, however often it failed before. */
  function Driven(spec: Spec, d: Disk, g: nat, restarts: nat, result: DriverResult, newFiles: map<Path, C.File>): Disk {
    d.(journal := d.journal[g := Tx(Running, restarts, spec.schema, spec.profile, map[])],
       results := d.results[g := result], files := Rewritten(d, newFiles))
  }

  lemma RewrittenTwice(d: Disk, d': Disk, newFiles: map<Path, C.File>, newer: map<Path, C.File>)
    requires d'.manifest == d.manifest && d'.files == Rewritten(d, newFiles)
    ensures Rewritten(d', newer) == Rewritten(d, newer)
  {
  }

  lemma BeyondQuiet(signals: seq<Signal>)
    ensures SoftStop !in signals ==> SoftStop !in Beyond(signals) && SoftStop !in signals[..Stops(signals)]
  {
  }

  /** One attempt whose driver fails. */
  lemma AttemptFails(p: Policy, s: Moment, g: nat, restarts: nat)
    requires FailuresAhead(s.signals) > 0
    ensures var a := AttemptAt(p, s, g, restarts);
      if s.writes < 3 then a.outcome == Down
      else
        && a.outcome == Finished && !a.published && a.at.signals == Beyond(s.signals) && a.at.writes == s.writes - 3
        && a.at.disk == s.disk.(journal := s.disk.journal[g := Tx(Failed, restarts, p.spec.schema, p.spec.profile, map[])], files := a.at.disk.files)
        && (forall newer :: Rewritten(a.at.disk, newer) == Rewritten(s.disk, newer))
        && (!s.stop && SoftStop !in s.signals ==> !a.at.stop)
  {
    hide Rewritten, Coming, Stops, Beyond;
    BeyondQuiet(s.signals);
    var tx := Tx(Running, restarts, p.spec.schema, p.spec.profile, map[]);
    var newFiles := Coming(s.signals).value.newFiles;
    SameRewritten(s.disk, WriteTx(s.disk, g, tx), newFiles);
    Overwritten(s.disk.journal, s.disk.journal[g := tx], g, tx.(status := Failed));
    var a := AttemptAt(p, s, g, restarts);
    if s.writes >= 3 {
      assert a.at.disk.files == Rewritten(s.disk, newFiles);
      forall newer ensures Rewritten(a.at.disk, newer) == Rewritten(s.disk, newer) {
        RewrittenTwice(s.disk, a.at.disk, newFiles, newer);
      }
    }
  }

  lemma SameRewritten(d: Disk, d': Disk, newFiles: map<Path, C.File>)
    requires d'.manifest == d.manifest && d'.files == d.files
    ensures Rewritten(d', newFiles) == Rewritten(d, newFiles)
  {
  }

  /** One attempt whose driver does not fail: it publishes, or the process dies. */
  lemma AttemptEnds(p: Policy, s: Moment, g: nat, restarts: nat)
    requires FailuresAhead(s.signals) == 0
    ensures AfterFailures(s.signals) == s.signals
    ensures var a := AttemptAt(p, s, g, restarts);
      if s.writes < 2 || DoneAhead(s.signals).None? then a.outcome == Down
      else
        && a.outcome == Finished && a.published && a.at.signals == Beyond(s.signals) && a.at.writes == s.writes - 2
        && a.at.disk == Driven(p.spec, s.disk, g, restarts, DoneAhead(s.signals).value.result, DoneAhead(s.signals).value.newFiles)
        && (!s.stop && SoftStop !in s.signals ==> !a.at.stop)
  {
    hide Rewritten;
    BeyondQuiet(s.signals);
    if s.writes >= 2 && DoneAhead(s.signals).Some? {
      SameRewritten(s.disk, WriteTx(s.disk, g, Tx(Running, restarts, p.spec.schema, p.spec.profile, map[])), DoneAhead(s.signals).value.newFiles);
    }
  }

  /** The attempts in closed form. The driver is started again after every failure as long as there is room, and only
      then: with more failures ahead than room it is given up with the transaction FAILED, otherwise its success counts. */
  ghost predicate AttemptsEnd(p: Policy, s: Moment, g: nat, restarts: nat, r: Reached)
    requires restarts <= p.spec.maxRestarts
  {
    var n, room, done := FailuresAhead(s.signals), Room(p, restarts), DoneAhead(s.signals);
    if n > room then
      if s.writes < 3 * (room + 1) then r.outcome == Down
      else
        && r.outcome == Raised && r.at.writes == s.writes - 3 * (room + 1)
        && r.at.disk == s.disk.(journal := s.disk.journal[g := Tx(Failed, restarts + room, p.spec.schema, p.spec.profile, map[])], files := r.at.disk.files)
    else
      if s.writes < 3 * n + 2 || done.None? then r.outcome == Down
      else
        && r.outcome == Finished && r.at.writes == s.writes - (3 * n + 2) && r.at.signals == Beyond(AfterFailures(s.signals))
        && r.at.disk == Driven(p.spec, s.disk, g, restarts + n, done.value.result, done.value.newFiles)
        && (!s.stop && SoftStop !in s.signals ==> !r.at.stop)
  }

  lemma FailuresStep(signals: seq<Signal>)
    requires FailuresAhead(signals) > 0
    ensures FailuresAhead(signals) == 1 + FailuresAhead(Beyond(signals)) && AfterFailures(signals) == AfterFailures(Beyond(signals))
    ensures DoneAhead(signals) == DoneAhead(Beyond(signals))
  {
  }

  lemma Overwritten(m: map<nat, Tx>, m': map<nat, Tx>, g: nat, tx: Tx)
    requires g in m' && m' == m[g := m'[g]]
    ensures m'[g := tx] == m[g := tx]
  {
  }

  lemma AttemptsStep(p: Policy, s: Moment, g: nat, restarts: nat, at: Moment, r: Reached)
    requires restarts < p.spec.maxRestarts && p.resumable && FailuresAhead(s.signals) > 0 && s.writes >= 3
    requires at.signals == Beyond(s.signals) && at.writes == s.writes - 3 && (!s.stop && SoftStop !in s.signals ==> !at.stop && SoftStop !in at.signals)
    requires at.disk == s.disk.(journal := s.disk.journal[g := Tx(Failed, restarts, p.spec.schema, p.spec.profile, map[])], files := at.disk.files)
    requires forall newer :: Rewritten(at.disk, newer) == Rewritten(s.disk, newer)
    requires AttemptsEnd(p, at, g, restarts + 1, r)
    ensures AttemptsEnd(p, s, g, restarts, r)
  {
    hide Rewritten, Coming, FailuresAhead, AfterFailures, DoneAhead, Beyond;
    FailuresStep(s.signals);
    var n, room, done := FailuresAhead(s.signals), Room(p, restarts), DoneAhead(s.signals);
    Overwritten(s.disk.journal, at.disk.journal, g, Tx(Failed, restarts + room, p.spec.schema, p.spec.profile, map[]));
    Overwritten(s.disk.journal, at.disk.journal, g, Tx(Running, restarts + n, p.spec.schema, p.spec.profile, map[]));
    if done.Some? {
      assert Driven(p.spec, at.disk, g, restarts + n, done.value.result, done.value.newFiles) == Driven(p.spec, s.disk, g, restarts + n, done.value.result, done.value.newFiles);
    }
  }

  lemma {:induction false} AttemptsExactly(p: Policy, s: Moment, g: nat, restarts: nat)
    requires restarts <= p.spec.maxRestarts
    ensures AttemptsEnd(p, s, g, restarts, AttemptsAt(p, s, g, restarts))
    decreases |s.signals|
  {
    hide AttemptAt, Rewritten, Coming, FailuresAhead, AfterFailures, DoneAhead;
    var a := AttemptAt(p, s, g, restarts);
    if FailuresAhead(s.signals) > 0 {
      AttemptFails(p, s, g, restarts);
      if s.writes >= 3 && Room(p, restarts) > 0 {
        BeyondQuiet(s.signals);
        AttemptsExactly(p, a.at, g, restarts + 1);
        AttemptsStep(p, s, g, restarts, a.at, AttemptsAt(p, a.at, g, restarts + 1));
      }
    } else {
      AttemptEnds(p, s, g, restarts);
    }
  }

  // ----- a generation -----

  /** Everything before this generation is settled and its Arenas are recorded. */
  ghost predicate Ready(p: Policy, d: Disk, g: nat) {
    && LineageInv(p.spec, d) && d.manifest.fingerprint == d.catalog && Latest(d) == d.manifest.last
    && g == d.manifest.last + 1 == d.runtime.last + 1
    && (ArenaDue(p.spec, d.runtime.origin, d.manifest.last) ==> d.manifest.last in d.manifest.arenas)
  }

  lemma ReadyRestarts(p: Policy, d: Disk, g: nat)
    requires Ready(p, d, g)
    ensures Before(d, g) <= p.spec.maxRestarts && (g in d.journal ==> d.journal[g].status != Committed)
  {
    hide ArenasFirst, NoneBeyond, ArenaDue, SettledInv, UnderWay, TransactionOk;
    S.RestartsBounded(p.spec, d);
  }

  /** What a driver publishes, after whatever failures, is as if its transaction had just been opened. */
  lemma DrivenSound(p: Policy, d: Disk, g: nat, restarts: nat, result: DriverResult, newFiles: map<Path, C.File>)
    requires Ready(p, d, g) && restarts <= p.spec.maxRestarts
    ensures var e := Driven(p.spec, d, g, restarts, result, newFiles);
      && LineageInv(p.spec, e) && Latest(e) == e.manifest.last && g == NextGeneration(e) && e.catalog == d.catalog && e.manifest == d.manifest && e.runtime == d.runtime
      && g in e.journal && e.journal[g].status == Running && e.results[g] == result
      && (Validates(e.files, result) ==> Enabled(p.spec, e, CommitTransaction))
  {
    hide LineageInv, ArenaDue, Validates, HashesOf, Rewritten;
    var d1 := Apply(p.spec, d, OpenTransaction(restarts));
    EventKeepsArenas(p.spec, d, OpenTransaction(restarts));
    SameRewritten(d, d1, newFiles);
    EventKeepsArenas(p.spec, d1, Publish(result, newFiles));
    assert Apply(p.spec, d1, Publish(result, newFiles)) == Driven(p.spec, d, g, restarts, result, newFiles);
  }

  /** The result enters the catalog exactly when it declares what the catalog needs and conflicts with nothing. */
  lemma DrivenRegisters(p: Policy, d: Disk, g: nat, restarts: nat, result: DriverResult, newFiles: map<Path, C.File>)
    requires Ready(p, d, g) && restarts <= p.spec.maxRestarts && Validates(Rewritten(d, newFiles), result)
    ensures var e := Driven(p.spec, d, g, restarts, result, newFiles);
      && g in Tail(p.spec, e, g, 1).journal && g in Tail(p.spec, e, g, 1).results
      && (RegisterIn(p.spec, Tail(p.spec, e, g, 1), e.catalog, g).Ok? <==> Declared(d.catalog.entries, result.artifacts))
  {
    hide LineageInv, Inv, ArenaDue, Validates, HashesOf, Rewritten, RegisterIn, Declared;
    var e := Driven(p.spec, d, g, restarts, result, newFiles);
    DrivenSound(p, d, g, restarts, result, newFiles);
    LineageParts(p.spec, e);
    S.TailIs(p.spec, e, g);
    CommitKeeps(p.spec, e);
    Registrable(p.spec, Tail(p.spec, e, g, 1));
  }

  /** How a generation ends, in closed form. */
  ghost predicate GenerationEnd(p: Policy, s: Moment, g: nat, r: Reached)
    requires Before(s.disk, g) <= p.spec.maxRestarts
  {
    var n, prev, done := FailuresAhead(s.signals), Before(s.disk, g), DoneAhead(s.signals);
    var room := Room(p, prev);
    if g in s.disk.journal && !p.resumable then r == Reached(Raised, s)
    else if n > room then
      if s.writes < 3 * (room + 1) then r.outcome == Down
      else r.outcome == Raised && g in r.at.disk.journal && r.at.disk.journal[g] == Tx(Failed, prev + room, p.spec.schema, p.spec.profile, map[])
           && r.at.disk == s.disk.(journal := s.disk.journal[g := r.at.disk.journal[g]], files := r.at.disk.files)
    else if s.writes < 3 * n + 2 || done.None? then r.outcome == Down
    else
      var result := done.value.result;
      var e := Driven(p.spec, s.disk, g, prev + n, result, done.value.newFiles);
      if !Validates(e.files, result) then r.outcome == Raised && r.at.disk == e
      else if !Declared(s.disk.catalog.entries, result.artifacts) then
        if s.writes < 3 * n + 3 then r.outcome == Down else r.outcome == Raised && r.at.disk == Tail(p.spec, e, g, 1)
      else if s.writes < 3 * n + 6 then r.outcome == Down
      else GenerationCommitted(p, s, g, Tail(p.spec, e, g, 4), result.healthy, r)
  }

  /** What follows the commit: the checks on its metrics, a look for a stop request, the Arena. */
  ghost predicate GenerationCommitted(p: Policy, s: Moment, g: nat, d: Disk, healthy: bool, r: Reached) {
    exists at :: CommittedAt(p, s, g, d, healthy, r, at)
  }

  ghost predicate CommittedAt(p: Policy, s: Moment, g: nat, d: Disk, healthy: bool, r: Reached, at: Moment) {
    && at.disk == d && at.writes + 3 * FailuresAhead(s.signals) + 6 == s.writes && at.signals == Beyond(AfterFailures(s.signals))
    && (!s.stop && SoftStop !in s.signals ==> !at.stop)
    && r == if !healthy then Reached(Raised, at)
            else if !Polled(at).stop && ArenaDue(p.spec, d.runtime.origin, g) then Judging(p, Polled(at), g) else Reached(Finished, Polled(at))
  }

  lemma GenerationExactly(p: Policy, s: Moment, g: nat)
    requires Ready(p, s.disk, g)
    ensures Before(s.disk, g) <= p.spec.maxRestarts && GenerationEnd(p, s, g, GenerationAt(p, s, g))
  {
    hide LineageInv, Inv, ArenaDue, Validates, HashesOf, Rewritten, RegisterIn, Declared, AttemptsAt, Judging, Tail, FailuresAhead, AfterFailures, DoneAhead, Coming, Beyond, Latest;
    ReadyRestarts(p, s.disk, g);
    var n, prev, done := FailuresAhead(s.signals), Before(s.disk, g), DoneAhead(s.signals);
    AttemptsExactly(p, s, g, prev);
    if !(g in s.disk.journal && !p.resumable) && n <= Room(p, prev) && s.writes >= 3 * n + 2 && done.Some? {
      var result, newFiles := done.value.result, done.value.newFiles;
      var driven := AttemptsAt(p, s, g, prev);
      assert driven.at.disk == Driven(p.spec, s.disk, g, prev + n, result, newFiles);
      if Validates(driven.at.disk.files, result) {
        DrivenRegisters(p, s.disk, g, prev + n, result, newFiles);
        var committed := Committing(p, driven.at, g);
        if Declared(s.disk.catalog.entries, result.artifacts) && s.writes >= 3 * n + 6 {
          TailOrigin(p.spec, driven.at.disk, g);
          assert driven.at.disk.results[g] == result;
          assert committed.outcome == Finished;
          assert CommittedAt(p, s, g, Tail(p.spec, driven.at.disk, g, 4), result.healthy, GenerationAt(p, s, g), committed.at);
        }
      }
    }
  }

  lemma TailOrigin(spec: Spec, d: Disk, g: nat)
    requires g in d.journal && g in d.results
    ensures Tail(spec, d, g, 4).runtime.origin == d.runtime.origin
  {
    hide RegisterIn, HashesOf;
  }

  /** The commit that ends a generation whose result validates and registers. */
  lemma CommittedTail(p: Policy, d: Disk, g: nat, restarts: nat, result: DriverResult, newFiles: map<Path, C.File>)
    requires Ready(p, d, g) && restarts <= p.spec.maxRestarts && Validates(Rewritten(d, newFiles), result) && Declared(d.catalog.entries, result.artifacts)
    ensures var t := Tail(p.spec, Driven(p.spec, d, g, restarts, result, newFiles), g, 4);
      && LineageInv(p.spec, t) && t.manifest.fingerprint == t.catalog && Latest(t) == t.manifest.last == t.runtime.last == g
      && t.journal == d.journal[g := CommittedTx(p.spec, restarts, HashesOf(Rewritten(d, newFiles), result))]
      && t.results == d.results[g := result] && t.files == Rewritten(d, newFiles)
      && t.runtime == d.runtime.(last := g) && t.manifest.arenas == d.manifest.arenas
  {
    hide LineageInv, Inv, ArenaDue, Validates, HashesOf, Rewritten, RegisterIn, Declared, Latest, Tail, CheckpointsIn;
    var e := Driven(p.spec, d, g, restarts, result, newFiles);
    DrivenSound(p, d, g, restarts, result, newFiles);
    DrivenRegisters(p, d, g, restarts, result, newFiles);
    S.TailIs(p.spec, e, g);
    S.TailIsSound(p.spec, e, g);
  }

  // The six reasons to give up a generation, read off the disk before, what was to come, and the disk after.

  ghost predicate NotResumable(p: Policy, s: Moment, g: nat, d: Disk) { g in d.journal && !p.resumable && d == s.disk }

  ghost predicate OutOfRestarts(p: Policy, s: Moment, g: nat, d: Disk) {
    && g in d.journal && d.journal[g].status == Failed && d.manifest == s.disk.manifest
    && FailuresAhead(s.signals) > d.journal[g].restarts - Before(s.disk, g)
    && (d.journal[g].restarts == p.spec.maxRestarts || (!p.resumable && d.journal[g].restarts == Before(s.disk, g)))
  }

  ghost predicate InvalidResult(s: Moment, g: nat, d: Disk) {
    g in d.journal && d.journal[g].status == Running && g in d.results && !Validates(d.files, d.results[g]) && d.manifest == s.disk.manifest
  }

  ghost predicate NotRegistrable(s: Moment, g: nat, d: Disk) {
    g in d.journal && d.journal[g].status == Committed && g in d.results && !Declared(s.disk.catalog.entries, d.results[g].artifacts) && d.manifest == s.disk.manifest
  }

  ghost predicate Unhealthy(g: nat, d: Disk) { d.manifest.last == g && g in d.results && !d.results[g].healthy }

  ghost predicate ArenaMissed(p: Policy, s: Moment, g: nat, d: Disk) {
    && d.manifest.last == g && ArenaDue(p.spec, d.runtime.origin, g) && g !in d.manifest.arenas
    && (!p.arena || Coming(Beyond(AfterFailures(s.signals))) != Some(ArenaPassed))
  }

  /** A generation gives up only for one of six reasons: it may not be resumed; its driver failed more often than it
      may be restarted; its result does not validate; the catalog cannot take it; the checks after the commit object;
      the Arena that is due is not there or does not pass. */
  lemma RaisedOnlyIf(p: Policy, s: Moment, g: nat)
    requires Ready(p, s.disk, g) && GenerationAt(p, s, g).outcome == Raised
    ensures var d := GenerationAt(p, s, g).at.disk;
      NotResumable(p, s, g, d) || OutOfRestarts(p, s, g, d) || InvalidResult(s, g, d) || NotRegistrable(s, g, d) || Unhealthy(g, d) || ArenaMissed(p, s, g, d)
  {
    hide LineageInv, Inv, ArenaDue, Validates, HashesOf, Rewritten, RegisterIn, Declared, Tail, GenerationAt, FailuresAhead, AfterFailures, Beyond, Coming, Stops, CommittedAt, Unhealthy, ArenaMissed, Latest, Judging;
    GenerationExactly(p, s, g);
    ReadyRestarts(p, s.disk, g);
    var n, prev, done := FailuresAhead(s.signals), Before(s.disk, g), DoneAhead(s.signals);
    if !(g in s.disk.journal && !p.resumable) && n <= Room(p, prev) {
      var result, newFiles := done.value.result, done.value.newFiles;
      var e := Driven(p.spec, s.disk, g, prev + n, result, newFiles);
      S.TailIs(p.spec, e, g);
      if Validates(e.files, result) && Declared(s.disk.catalog.entries, result.artifacts) {
        var at :| CommittedAt(p, s, g, Tail(p.spec, e, g, 4), result.healthy, GenerationAt(p, s, g), at);
        CommittedTail(p, s.disk, g, prev + n, result, newFiles);
        RaisedLate(p, s, g, Tail(p.spec, e, g, 4), result.healthy, GenerationAt(p, s, g), at);
      }
    }
  }

  lemma RaisedLate(p: Policy, s: Moment, g: nat, d: Disk, healthy: bool, r: Reached, at: Moment)
    requires CommittedAt(p, s, g, d, healthy, r, at) && r.outcome == Raised && d.manifest.last == g && g in d.results && d.results[g].healthy == healthy
    requires LineageInv(p.spec, s.disk) && d.manifest.arenas == s.disk.manifest.arenas && s.disk.manifest.last < g
    ensures Unhealthy(g, r.at.disk) || ArenaMissed(p, s, g, r.at.disk)
  {
    hide LineageInv, ArenaDue, FailuresAhead, AfterFailures, Beyond, Stops, Coming, Polled;
    PolledComing(at);
    ArenasBehind(p.spec, s.disk);
  }

  lemma ArenasBehind(spec: Spec, d: Disk)
    requires LineageInv(spec, d)
    ensures forall h :: h in d.manifest.arenas ==> h <= d.manifest.last
  {
    hide Inv, ArenasFirst;
  }

  /** Looking for a stop request does not change what comes next. */
  lemma PolledComing(s: Moment)
    ensures Coming(Polled(s).signals) == Coming(s.signals) && Beyond(Polled(s).signals) == Beyond(s.signals)
    ensures SoftStop !in s.signals ==> SoftStop !in Polled(s).signals && Polled(s).stop == s.stop
    ensures Polled(s).disk == s.disk && Polled(s).writes == s.writes
  {
  }

  /** The drivers to come get this generation committed: few enough failures, then a result that validates, registers
      and passes the checks. */
  ghost predicate WillCommit(p: Policy, d: Disk, signals: seq<Signal>) {
    var g, n, done := NextGeneration(d), FailuresAhead(signals), DoneAhead(signals);
    && (g in d.journal || n > 0 ==> p.resumable) && Before(d, g) + n <= p.spec.maxRestarts
    && done.Some? && done.value.result.healthy
    && Validates(Rewritten(d, done.value.newFiles), done.value.result) && Declared(d.catalog.entries, done.value.result.artifacts)
  }

  /** The disk with that generation committed. */
  ghost function NextDisk(p: Policy, d: Disk, signals: seq<Signal>): Disk
    requires WillCommit(p, d, signals)
  {
    var g, done := NextGeneration(d), DoneAhead(signals).value;
    Tail(p.spec, Driven(p.spec, d, g, Before(d, g) + FailuresAhead(signals), done.result, done.newFiles), g, 4)
  }

  lemma NextDiskIs(p: Policy, d: Disk, signals: seq<Signal>)
    requires Ready(p, d, NextGeneration(d)) && WillCommit(p, d, signals)
    ensures var g, t, done := NextGeneration(d), NextDisk(p, d, signals), DoneAhead(signals).value;
      && LineageInv(p.spec, t) && t.manifest.fingerprint == t.catalog && Latest(t) == t.manifest.last == t.runtime.last == g
      && t.journal == d.journal[g := CommittedTx(p.spec, Before(d, g) + FailuresAhead(signals), HashesOf(Rewritten(d, done.newFiles), done.result))]
      && t.results == d.results[g := done.result] && t.files == Rewritten(d, done.newFiles)
      && t.runtime == d.runtime.(last := g) && t.manifest.arenas == d.manifest.arenas
  {
    hide LineageInv, Inv, ArenaDue, Validates, HashesOf, Rewritten, Declared, Latest, Tail, FailuresAhead, DoneAhead;
    var g, done := NextGeneration(d), DoneAhead(signals).value;
    CommittedTail(p, d, g, Before(d, g) + FailuresAhead(signals), done.result, done.newFiles);
  }

  lemma CommitsAt(p: Policy, s: Moment) returns (at: Moment)
    requires Ready(p, s.disk, NextGeneration(s.disk)) && WillCommit(p, s.disk, s.signals) && s.writes >= 3 * FailuresAhead(s.signals) + 6
    ensures var g := NextGeneration(s.disk); CommittedAt(p, s, g, NextDisk(p, s.disk, s.signals), true, GenerationAt(p, s, g), at)
  {
    hide LineageInv, Inv, ArenaDue, Validates, HashesOf, Rewritten, Declared, Tail, GenerationAt, FailuresAhead, DoneAhead, AfterFailures, Beyond, Coming, Judging, Latest, Polled;
    var g := NextGeneration(s.disk);
    GenerationExactly(p, s, g);
    assert GenerationCommitted(p, s, g, NextDisk(p, s.disk, s.signals), true, GenerationAt(p, s, g));
    at :| CommittedAt(p, s, g, NextDisk(p, s.disk, s.signals), true, GenerationAt(p, s, g), at);
  }

  /** A generation whose drivers succeed within the restarts left, with writes enough and no Arena due, is committed: the
      manifest names it, and the journal has the restarts of all processes together. */
  lemma GenerationCommits(p: Policy, s: Moment, g: nat)
    requires Ready(p, s.disk, g) && WillCommit(p, s.disk, s.signals) && s.writes >= 3 * FailuresAhead(s.signals) + 6
    requires !ArenaDue(p.spec, s.disk.runtime.origin, g)
    ensures var r, done := GenerationAt(p, s, g), DoneAhead(s.signals).value;
      && r.outcome == Finished && r.at.disk.manifest.last == r.at.disk.runtime.last == g && r.at.disk.manifest.fingerprint == r.at.disk.catalog
      && g in r.at.disk.catalog.generations && LineageInv(p.spec, r.at.disk)
      && r.at.disk.journal == s.disk.journal[g := CommittedTx(p.spec, Before(s.disk, g) + FailuresAhead(s.signals), HashesOf(Rewritten(s.disk, done.newFiles), done.result))]
      && r.at.disk.results == s.disk.results[g := done.result] && r.at.writes == s.writes - (3 * FailuresAhead(s.signals) + 6)
  {
    hide LineageInv, Inv, ArenaDue, Validates, HashesOf, Rewritten, Declared, Tail, GenerationAt, FailuresAhead, DoneAhead, AfterFailures, Beyond, Coming, Judging, Latest, Polled;
    NextDiskIs(p, s.disk, s.signals);
    var at := CommitsAt(p, s);
    PolledComing(at);
    LineageParts(p.spec, s.disk);
    OriginFirst(p.spec, s.disk);
    LastCataloged(p.spec, NextDisk(p, s.disk, s.signals));
  }

  lemma LastCataloged(spec: Spec, d: Disk)
    requires LineageInv(spec, d) && d.manifest.fingerprint == d.catalog && d.manifest.last > d.runtime.origin
    ensures d.manifest.last in d.catalog.generations
  {
    hide JournalInv, UnderWay, ArenasFirst, NoneBeyond, RecordAgrees, CheckpointsKept, C.Consistent;
  }

  // ----- the run -----

  /** Everything committed is settled; its last Arena may still be missing. */
  ghost predicate Settled(p: Policy, d: Disk) {
    LineageInv(p.spec, d) && d.manifest.fingerprint == d.catalog && Latest(d) == d.manifest.last == d.runtime.last
  }

  predicate ArenaMissing(p: Policy, d: Disk) {
    ArenaDue(p.spec, d.runtime.origin, d.manifest.last) && d.manifest.last !in d.manifest.arenas
  }

  /** The disk once the Arena that is missing has passed. */
  function Judged(p: Policy, d: Disk): Disk {
    if ArenaMissing(p, d) then d.(manifest := d.manifest.(arenas := d.manifest.arenas + {d.manifest.last})) else d
  }

  function AfterArena(p: Policy, d: Disk, signals: seq<Signal>): seq<Signal> {
    if ArenaMissing(p, d) then Beyond(signals) else signals
  }

  /** What is to come gets k more generations committed and every Arena that is due passed. */
  ghost predicate WillReach(p: Policy, d: Disk, signals: seq<Signal>, k: nat)
    decreases k
  {
    hide WillCommit, NextDisk, FailuresAhead, AfterFailures, Coming, Beyond, ArenaMissing;
    && (ArenaMissing(p, d) ==> p.arena && Coming(signals) == Some(ArenaPassed))
    && (k > 0 ==>
          var (judged, rest) := (Judged(p, d), AfterArena(p, d, signals));
          WillCommit(p, judged, rest) && WillReach(p, NextDisk(p, judged, rest), Beyond(AfterFailures(rest)), k - 1))
  }

  /** The disk it then leads to, and the writes it takes. */
  ghost function EndDisk(p: Policy, d: Disk, signals: seq<Signal>, k: nat): Disk
    requires WillReach(p, d, signals, k)
    decreases k
  {
    hide WillCommit, NextDisk, FailuresAhead, AfterFailures, Coming, Beyond, ArenaMissing;
    var (judged, rest) := (Judged(p, d), AfterArena(p, d, signals));
    if k == 0 then judged else EndDisk(p, NextDisk(p, judged, rest), Beyond(AfterFailures(rest)), k - 1)
  }

  ghost function Cost(p: Policy, d: Disk, signals: seq<Signal>, k: nat): nat
    requires WillReach(p, d, signals, k)
    decreases k
  {
    hide WillCommit, NextDisk, FailuresAhead, AfterFailures, Coming, Beyond, ArenaMissing;
    var (judged, rest) := (Judged(p, d), AfterArena(p, d, signals));
    (if ArenaMissing(p, d) then 2 else 0) +
    if k == 0 then 0 else 3 * FailuresAhead(rest) + 6 + Cost(p, NextDisk(p, judged, rest), Beyond(AfterFailures(rest)), k - 1)
  }

  /** Only what comes matters, not how long it takes to come. */
  lemma SameComing(p: Policy, d: Disk, a: seq<Signal>, b: seq<Signal>, k: nat)
    requires WillReach(p, d, a, k) && Coming(a) == Coming(b) && Beyond(a) == Beyond(b)
    ensures WillReach(p, d, b, k) && EndDisk(p, d, b, k) == EndDisk(p, d, a, k) && Cost(p, d, b, k) == Cost(p, d, a, k)
  {
    hide Coming, Beyond, WillReach, EndDisk, Cost, ArenaMissing, Judged, NextDisk, WillCommit;
    var (rest, rest') := (AfterArena(p, d, a), AfterArena(p, d, b));
    assert Coming(rest) == Coming(rest') && Beyond(rest) == Beyond(rest');
    SameFailures(rest, rest');
    SameReach(p, d, a, b, k);
  }

  lemma SameFailures(a: seq<Signal>, b: seq<Signal>)
    requires Coming(a) == Coming(b) && Beyond(a) == Beyond(b)
    ensures FailuresAhead(a) == FailuresAhead(b) && DoneAhead(a) == DoneAhead(b) && Beyond(AfterFailures(a)) == Beyond(AfterFailures(b))
  {
    hide Coming, Beyond;
  }

  lemma SameReach(p: Policy, d: Disk, a: seq<Signal>, b: seq<Signal>, k: nat)
    requires WillReach(p, d, a, k) && Coming(a) == Coming(b)
    requires var (rest, rest') := (AfterArena(p, d, a), AfterArena(p, d, b));
      FailuresAhead(rest) == FailuresAhead(rest') && DoneAhead(rest) == DoneAhead(rest') && Beyond(AfterFailures(rest)) == Beyond(AfterFailures(rest'))
    ensures WillReach(p, d, b, k) && EndDisk(p, d, b, k) == EndDisk(p, d, a, k) && Cost(p, d, b, k) == Cost(p, d, a, k)
  {
    hide Coming, Beyond, ArenaMissing, Judged, FailuresAhead, DoneAhead, AfterFailures, AfterArena, Tail, Driven, Validates, Declared;
  }

  /** Once its Arena has passed the way goes on from there. */
  lemma ReachOn(p: Policy, d: Disk, signals: seq<Signal>, k: nat)
    requires WillReach(p, d, signals, k)
    ensures var (judged, rest) := (Judged(p, d), AfterArena(p, d, signals));
      && !ArenaMissing(p, judged) && WillReach(p, judged, rest, k) && EndDisk(p, judged, rest, k) == EndDisk(p, d, signals, k)
      && Cost(p, d, signals, k) == Cost(p, judged, rest, k) + if ArenaMissing(p, d) then 2 else 0
  {
    hide Coming, Beyond, ArenaDue, FailuresAhead, DoneAhead, AfterFailures, WillCommit, NextDisk;
  }

  lemma JudgedSettled(p: Policy, d: Disk)
    requires Settled(p, d)
    ensures Settled(p, Judged(p, d)) && Ready(p, Judged(p, d), NextGeneration(d)) && Judged(p, d).manifest.last == d.manifest.last
  {
    hide LineageInv, ArenaDue, Latest;
    if ArenaMissing(p, d) {
      EventKeepsArenas(p.spec, d, RecordArena);
      S.SettledStaysSettled(d);
    }
  }

  /** The Arena that is missing runs and passes. */
  lemma Caught(p: Policy, s: Moment)
    requires ArenaMissing(p, s.disk) ==> p.arena && Coming(s.signals) == Some(ArenaPassed) && s.writes >= 2
    requires !s.stop && SoftStop !in s.signals
    ensures var r := Catching(p, s);
      && r.outcome == Finished && r.at.disk == Judged(p, s.disk) && r.at.signals == AfterArena(p, s.disk, s.signals)
      && s.writes == r.at.writes + (if ArenaMissing(p, s.disk) then 2 else 0) && !r.at.stop && SoftStop !in r.at.signals
  {
    hide ArenaDue, Coming;
    BeyondQuiet(s.signals);
  }

  /** A generation the drivers get committed, in the middle of a run: it ends with its Arena passed, too. */
  lemma GenerationGoes(p: Policy, s: Moment, k: nat)
    requires Ready(p, s.disk, NextGeneration(s.disk)) && !s.stop && SoftStop !in s.signals
    requires WillCommit(p, s.disk, s.signals) && WillReach(p, NextDisk(p, s.disk, s.signals), Beyond(AfterFailures(s.signals)), k)
    requires s.writes >= 3 * FailuresAhead(s.signals) + 6 + Cost(p, NextDisk(p, s.disk, s.signals), Beyond(AfterFailures(s.signals)), k)
    ensures var r, next, rest := GenerationAt(p, s, NextGeneration(s.disk)), NextDisk(p, s.disk, s.signals), Beyond(AfterFailures(s.signals));
      && r.outcome == Finished && Settled(p, r.at.disk) && r.at.disk.manifest.last == NextGeneration(s.disk)
      && !r.at.stop && SoftStop !in r.at.signals
      && WillReach(p, r.at.disk, r.at.signals, k) && EndDisk(p, r.at.disk, r.at.signals, k) == EndDisk(p, next, rest, k)
      && s.writes - r.at.writes == 3 * FailuresAhead(s.signals) + 6 + Cost(p, next, rest, k) - Cost(p, r.at.disk, r.at.signals, k)
  {
    hide LineageInv, Inv, ArenaDue, Validates, HashesOf, Rewritten, Declared, Tail, GenerationAt, FailuresAhead, DoneAhead, AfterFailures, Beyond, Coming, Judging, Latest, Polled, WillReach, EndDisk, Cost, NextDisk, Judged, AfterArena;
    var g, next, rest := NextGeneration(s.disk), NextDisk(p, s.disk, s.signals), Beyond(AfterFailures(s.signals));
    NextDiskIs(p, s.disk, s.signals);
    var at := CommitsAt(p, s);
    PolledComing(at);
    FailuresQuiet(s.signals);
    ArenasBehind(p.spec, s.disk);
    SameComing(p, next, rest, Polled(at).signals, k);
    ReachArena(p, next, Polled(at).signals, k);
    ReachOn(p, next, Polled(at).signals, k);
    Caught(p, Polled(at));
    JudgedSettled(p, next);
    CatchesOrNot(p, Polled(at), g);
  }

  lemma CatchesOrNot(p: Policy, s: Moment, g: nat)
    requires g == s.disk.manifest.last && g !in s.disk.manifest.arenas
    ensures Catching(p, s) == if ArenaDue(p.spec, s.disk.runtime.origin, g) then Judging(p, s, g) else Reached(Finished, s)
    ensures ArenaMissing(p, s.disk) <==> ArenaDue(p.spec, s.disk.runtime.origin, g)
  {
    hide ArenaDue, Judging;
  }

  lemma ReachArena(p: Policy, d: Disk, signals: seq<Signal>, k: nat)
    requires WillReach(p, d, signals, k)
    ensures ArenaMissing(p, d) ==> p.arena && Coming(signals) == Some(ArenaPassed) && Cost(p, d, signals, k) >= 2
  {
    hide Coming, Beyond, ArenaDue, FailuresAhead, DoneAhead, AfterFailures, WillCommit, NextDisk;
  }

  lemma {:induction false} FailuresQuiet(signals: seq<Signal>)
    requires SoftStop !in signals
    ensures SoftStop !in AfterFailures(signals) && SoftStop !in Beyond(AfterFailures(signals))
    decreases |signals|
  {
    hide Coming;
    BeyondQuiet(signals);
    if FailuresAhead(signals) > 0 {
      FailuresQuiet(Beyond(signals));
    }
  }

  /** One turn of the loop on the way. */
  lemma TurnGoes(p: Policy, s: Moment, k: nat)
    requires Settled(p, s.disk) && !s.stop && SoftStop !in s.signals && WillReach(p, s.disk, s.signals, k)
    requires s.writes >= Cost(p, s.disk, s.signals, k) + 2
    ensures var t, max := TurnAt(p, Some(s.disk.manifest.last + k), s), s.disk.manifest.last + k;
      if k == 0 then
        t.Over? && t.end.outcome == Finished && t.end.at.disk == Completing(EndDisk(p, s.disk, s.signals, k))
        && t.end.at.writes == s.writes - Cost(p, s.disk, s.signals, k) - 2
      else
        && t.Again? && Settled(p, t.at.disk) && !t.at.stop && SoftStop !in t.at.signals && t.at.disk.manifest.last + (k - 1) == max
        && WillReach(p, t.at.disk, t.at.signals, k - 1) && EndDisk(p, t.at.disk, t.at.signals, k - 1) == EndDisk(p, s.disk, s.signals, k)
        && s.writes - t.at.writes == Cost(p, s.disk, s.signals, k) - Cost(p, t.at.disk, t.at.signals, k - 1)
  {
    hide LineageInv, Inv, ArenaDue, GenerationAt, FailuresAhead, AfterFailures, Beyond, Coming, Catching, Latest, Polled, WillReach, EndDisk, Cost, NextDisk, WillCommit, Judged, AfterArena, ArenaMissing;
    var polled := Polled(s);
    PolledComing(s);
    SameComing(p, s.disk, s.signals, polled.signals, k);
    ReachArena(p, s.disk, polled.signals, k);
    Caught(p, polled);
    JudgedSettled(p, s.disk);
    ReachOn(p, s.disk, polled.signals, k);
    var judged, rest := Judged(p, s.disk), AfterArena(p, s.disk, polled.signals);
    NoneMissing(p, judged, rest, k);
    if k > 0 {
      GenerationGoes(p, Catching(p, polled).at, k - 1);
    }
  }

  function Completing(d: Disk): Disk { d.(runtime := d.runtime.(status := Completed)) }

  /** With no Arena missing the way is a generation and the rest of the way. */
  lemma NoneMissing(p: Policy, d: Disk, signals: seq<Signal>, k: nat)
    requires WillReach(p, d, signals, k) && !ArenaMissing(p, d)
    ensures k == 0 ==> EndDisk(p, d, signals, k) == d && Cost(p, d, signals, k) == 0
    ensures k > 0 ==>
              && WillCommit(p, d, signals) && WillReach(p, NextDisk(p, d, signals), Beyond(AfterFailures(signals)), k - 1)
              && EndDisk(p, d, signals, k) == EndDisk(p, NextDisk(p, d, signals), Beyond(AfterFailures(signals)), k - 1)
              && Cost(p, d, signals, k) == 3 * FailuresAhead(signals) + 6 + Cost(p, NextDisk(p, d, signals), Beyond(AfterFailures(signals)), k - 1)
  {
    hide Coming, Beyond, ArenaMissing, FailuresAhead, DoneAhead, AfterFailures, WillCommit, NextDisk;
  }

  lemma {:induction false} LoopCompletes(p: Policy, s: Moment, k: nat)
    requires Settled(p, s.disk) && !s.stop && SoftStop !in s.signals && WillReach(p, s.disk, s.signals, k)
    requires s.writes >= Cost(p, s.disk, s.signals, k) + 2
    ensures var r := LoopAt(p, Some(s.disk.manifest.last + k), s);
      && r.outcome == Finished && r.at.disk == Completing(EndDisk(p, s.disk, s.signals, k))
      && r.at.writes == s.writes - Cost(p, s.disk, s.signals, k) - 2
    decreases k
  {
    hide Settled, TurnAt, WillReach, EndDisk, Cost, Completing;
    TurnGoes(p, s, k);
    if k > 0 {
      LoopCompletes(p, TurnAt(p, Some(s.disk.manifest.last + k), s).at, k - 1);
    }
  }

  /** A run on an agreed disk goes all the way to its limit: k generations, each restarted as often as its drivers
      fail, with every Arena that is due. */
  lemma RunCompletes(p: Policy, s: Moment, k: nat)
    requires LineageInv(p.spec, s.disk) && Agreed(p.spec, s.disk) && s.disk.runtime.status in {GenerationCommit.Created, Active}
    requires !s.stop && SoftStop !in s.signals && WillReach(p, Activated(s.disk), s.signals, k)
    requires s.writes >= Cost(p, Activated(s.disk), s.signals, k) + 3
    ensures var r := RunAt(p, Some(s.disk.manifest.last + k), s);
      && r.outcome == Finished && r.at.disk == Completing(EndDisk(p, Activated(s.disk), s.signals, k))
      && r.at.writes == s.writes - Cost(p, Activated(s.disk), s.signals, k) - 3
  {
    hide LineageInv, Agreed, WillReach, EndDisk, Cost, Completing, Recovery, LoopAt, Latest;
    SecondRecoveryIsIdle(p.spec, s.disk);
    AgreedSettled(p, s.disk);
    EventKeepsArenas(p.spec, s.disk, SetStatus(Active));
    S.SettledStaysSettled(s.disk);
    LoopCompletes(p, Restated(s, Active).at, k);
  }

  function Activated(d: Disk): Disk { d.(runtime := d.runtime.(status := Active)) }

  lemma AgreedSettled(p: Policy, d: Disk)
    requires LineageInv(p.spec, d) && Agreed(p.spec, d)
    ensures Settled(p, d)
  {
    hide JournalInv, SettledInv, ArenasFirst, NoneBeyond;
  }

  /** Where such a run ends: k more generations committed and settled, the earlier journal untouched, the first of them
      with the restarts of all processes together, no due Arena missing. */
  lemma {:induction false} EndDiskIs(p: Policy, d: Disk, signals: seq<Signal>, k: nat)
    requires Settled(p, d) && WillReach(p, d, signals, k)
    ensures var e := EndDisk(p, d, signals, k);
      && Settled(p, e) && e.manifest.last == d.manifest.last + k && !ArenaMissing(p, e) && e.runtime.origin == d.runtime.origin
      && (forall h :: h <= d.manifest.last && h in d.journal ==> h in e.journal && e.journal[h] == d.journal[h])
      && (forall h :: d.manifest.last < h <= d.manifest.last + k ==> h in e.journal && e.journal[h].status == Committed)
      && (k > 0 ==> e.journal[d.manifest.last + 1].restarts == Before(d, d.manifest.last + 1) + FailuresAhead(AfterArena(p, d, signals)))
    decreases k
  {
    hide LineageInv, ArenaDue, Latest, FailuresAhead, AfterFailures, Beyond, Coming, WillReach, EndDisk, Cost, NextDisk, WillCommit, AfterArena, ArenaMissing, HashesOf, Rewritten;
    JudgedSettled(p, d);
    ReachOn(p, d, signals, k);
    var judged, rest := Judged(p, d), AfterArena(p, d, signals);
    NoneMissing(p, judged, rest, k);
    if k > 0 {
      NextDiskIs(p, judged, rest);
      EndDiskIs(p, NextDisk(p, judged, rest), Beyond(AfterFailures(rest)), k - 1);
    }
  }

  /** A loop that raises has marked the state for recovery, unless the process died on that very write. */
  lemma {:induction false} RaisedIsMarked(p: Policy, max: Option<nat>, s: Moment)
    requires LoopAt(p, max, s).outcome == Raised
    ensures LoopAt(p, max, s).at.disk.runtime.status == RecoveryRequired || LoopAt(p, max, s).at.writes == 0
    decreases |s.signals|
  {
    hide GenerationAt, Catching, Polled;
    var t := TurnAt(p, max, s);
    if t.Again? {
      RaisedIsMarked(p, max, t.at);
    }
  }

  // ----- after a crash -----

  /** What a recovery leaves alone, and what it makes of the state. */
  lemma RecoveringTells(p: Policy, s: Moment)
    ensures var r := Recovering(p, s);
      && r.at.signals == s.signals && r.at.stop == s.stop
      && r.at.disk.journal == s.disk.journal && r.at.disk.manifest.arenas == s.disk.manifest.arenas
      && (r.outcome == Finished ==>
            if Recovery(p.spec, s.disk).Finish? then r.at.disk.runtime.status == RecoveryRequired else r.at.disk == s.disk)
      && (r.outcome == Raised ==> !Recovery(p.spec, s.disk).Finish?)
  {
    hide Reconcile, Pending, CheckpointsOf, AllJournaled, TransactionOk;
  }

  /** A lineage that stopped, completed or needs recovery is not run again without an explicit resume, nor is one whose
      interrupted commit was just finished: no transaction is opened and nothing that is to come is taken. */
  lemma RunNeedsResume(p: Policy, max: Option<nat>, s: Moment)
    requires s.disk.runtime.status in {SoftStopped, Completed, RecoveryRequired} || Recovery(p.spec, s.disk).Finish?
    ensures var r := RunAt(p, max, s);
      && r.outcome != Finished && r.at.disk.journal == s.disk.journal && r.at.disk.manifest.arenas == s.disk.manifest.arenas
      && r.at.signals == s.signals
      && (r.outcome == Raised && Recovery(p.spec, s.disk).Finish? ==> r.at.disk.runtime.status == RecoveryRequired)
  {
    hide Recovering, Recovery, LoopAt;
    RecoveringTells(p, s);
  }

  /** A lineage that is running is not reopened, and a resume that goes through leaves it CREATED without a stop request. */
  lemma ResumeNeedsStop(p: Policy, s: Moment)
    ensures s.disk.runtime.status == Active && !Recovery(p.spec, s.disk).Finish? ==> ResumeAt(p, s).outcome != Finished
    ensures ResumeAt(p, s).outcome == Finished ==> ResumeAt(p, s).at.disk.runtime.status == GenerationCommit.Created && !ResumeAt(p, s).at.stop
    ensures ResumeAt(p, s).at.disk.journal == s.disk.journal && ResumeAt(p, s).at.signals == s.signals
  {
    hide Recovering, Recovery;
    RecoveringTells(p, s);
  }

  /** Resuming the disk any crash leaves, unless the run can simply be started again: the interrupted commit is
      finished, the stop request is gone, the state is CREATED. */
  lemma ResumeReady(p: Policy, s: Moment)
    requires LineageInv(p.spec, s.disk) && (Latest(s.disk) > s.disk.manifest.last ==> Latest(s.disk) <= 9999 && Publishable(s.disk))
    requires s.disk.runtime.status == Active ==> Latest(s.disk) > s.disk.manifest.last
    requires s.writes >= WriteCount(Recovery(p.spec, s.disk)) + 1
    ensures var r, after := ResumeAt(p, s), AfterRecovery(s.disk, Recovery(p.spec, s.disk));
      && r == Reached(Finished, Moment(after.(runtime := after.runtime.(status := GenerationCommit.Created)), s.signals, false,
                                       s.writes - WriteCount(Recovery(p.spec, s.disk)) - 1))
      && LineageInv(p.spec, r.at.disk) && Agreed(p.spec, r.at.disk) && r.at.disk.manifest.last == Latest(s.disk) && r.at.disk.journal == s.disk.journal
  {
    hide LineageInv, Inv, Publishable, Recovery, WriteCount, AfterRecovery, Latest, ArenasFirst, NoneBeyond;
    var d, r := s.disk, Recovery(p.spec, s.disk);
    LineageParts(p.spec, d);
    RecoveryAgrees(p.spec, d);
    S.RecoveryIsSound(p.spec, d, AfterRecovery(d, r));
    RecoveryNotRefused(p.spec, d);
    AgreedSettled(p, AfterRecovery(d, r));
    EventKeepsArenas(p.spec, AfterRecovery(d, r), SetStatus(GenerationCommit.Created));
    S.AgreedIgnoresStatus(p.spec, AfterRecovery(d, r), Apply(p.spec, AfterRecovery(d, r), SetStatus(GenerationCommit.Created)));
  }

  lemma RecoveryNotRefused(spec: Spec, d: Disk)
    requires LineageInv(spec, d) && (Latest(d) > d.manifest.last ==> Latest(d) <= 9999 && Publishable(d))
    ensures !Recovery(spec, d).Refused? && Latest(d) >= d.manifest.last
    ensures if Latest(d) > d.manifest.last then AfterRecovery(d, Recovery(spec, d)).runtime.status == RecoveryRequired else AfterRecovery(d, Recovery(spec, d)) == d
  {
    hide Inv, RegisterIn, Recovery, ArenasFirst, NoneBeyond, Publishable;
    LineageParts(spec, d);
    if Latest(d) == d.manifest.last {
      SecondRecoveryIsIdle(spec, d);
    } else {
      UnderWayFacts(spec, d);
      Registrable(spec, d);
      RecoveryIs(spec, d);
    }
  }

  /** Crash anywhere, resume, run on: what was committed stays as it was, and with drivers and Arenas that succeed the
      next k generations are committed and the run ends COMPLETED. */
  lemma CrashResumeRun(p: Policy, s: Moment, k: nat)
    requires LineageInv(p.spec, s.disk) && (Latest(s.disk) > s.disk.manifest.last ==> Latest(s.disk) <= 9999 && Publishable(s.disk))
    requires s.disk.runtime.status == Active ==> Latest(s.disk) > s.disk.manifest.last
    requires var d := Activated(AfterRecovery(s.disk, Recovery(p.spec, s.disk)));
      && SoftStop !in s.signals && WillReach(p, d, s.signals, k)
      && s.writes >= WriteCount(Recovery(p.spec, s.disk)) + Cost(p, d, s.signals, k) + 4
    ensures var resumed := ResumeAt(p, s);
      && resumed.outcome == Finished
      && var r := RunAt(p, Some(Latest(s.disk) + k), resumed.at);
         && r.outcome == Finished && r.at.disk.runtime.status == Completed && r.at.disk.manifest.last == r.at.disk.runtime.last == Latest(s.disk) + k
         && r.at.disk.manifest.fingerprint == r.at.disk.catalog
         && (forall h :: h in s.disk.journal && s.disk.journal[h].status == Committed ==> h in r.at.disk.journal && r.at.disk.journal[h] == s.disk.journal[h])
         && (forall h :: s.disk.runtime.origin < h <= Latest(s.disk) + k ==> h in r.at.disk.journal && r.at.disk.journal[h].status == Committed)
  {
    hide LineageInv, Publishable, Recovery, WriteCount, AfterRecovery, Latest, WillReach, Cost, EndDisk, Agreed, RunAt, ResumeAt;
    ResumeReady(p, s);
    var at := ResumeAt(p, s).at;
    RunCompletes(p, at, k);
    AgreedSettled(p, at.disk);
    EventKeepsArenas(p.spec, at.disk, SetStatus(Active));
    S.SettledStaysSettled(at.disk);
    EndDiskIs(p, Activated(at.disk), s.signals, k);
    AgreedJournal(p.spec, at.disk);
    S.RecoveryIsSound(p.spec, s.disk, AfterRecovery(s.disk, Recovery(p.spec, s.disk)));
  }
}
