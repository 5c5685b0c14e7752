/** Every history of a lineage - commits, crashes, interrupted recoveries - and what recovery makes of it. */
module CommitHistory {
  import opened Options
  import C = ArtifactCatalog
  import opened GenerationCommit
  import opened CommitRecovery

  // ----- the durable steps of all processes -----

  /** One durable write of the supervisor, of a recovery, or of the generation driver it runs. */
  datatype Event =
    | OpenTransaction(restarts: nat)
    | FailTransaction
    | WriteFiles(newFiles: map<Path, C.File>)
    | Publish(result: DriverResult, newFiles: map<Path, C.File>)
    | CommitTransaction
    | RegisterGeneration
    | AdvanceState(status: RunStatus)
    | AdvanceManifest
    | SetStatus(status: RunStatus)
    | RecordArena

  function NextGeneration(d: Disk): nat { d.manifest.last + 1 }

  predicate ArenaDue(spec: Spec, origin: nat, g: nat) {
    spec.arenaEvery > 0 && g > origin && (g - origin) % spec.arenaEvery == 0
  }

  /** An Arena is due at the origin plus one interval, plus two, and so on. */
  lemma ArenaDueExactly(spec: Spec, origin: nat, g: nat)
    ensures ArenaDue(spec, origin, g) <==> spec.arenaEvery > 0 && exists k: nat :: k > 0 && g == Multiple(origin, spec.arenaEvery, k)
  {
    if spec.arenaEvery > 0 {
      if ArenaDue(spec, origin, g) {
        var k := (g - origin) / spec.arenaEvery;
        assert g == Multiple(origin, spec.arenaEvery, k);
      }
      if k: nat :| k > 0 && g == Multiple(origin, spec.arenaEvery, k) {
        MultipleRemainder(spec.arenaEvery, k);
      }
    }
  }

  function Multiple(origin: nat, every: nat, k: nat): nat { origin + k * every }

  lemma MultipleRemainder(every: nat, k: nat)
    requires every > 0
    ensures (k * every) % every == 0 && (k > 0 ==> k * every > 0)
  {
    var q, r := (k * every) / every, (k * every) % every;
    assert every * (k - q) == r;
    TimesAtLeast(every, k - q);
    TimesAtLeast(every, k);
  }

  lemma TimesAtLeast(a: nat, b: int)
    ensures (b >= 1 ==> a * b >= a) && (b <= -1 ==> a * b + a <= 0) && (b == 0 ==> a * b == 0)
  {
  }

  predicate Opened(d: Disk, status: Status) {
    NextGeneration(d) in d.journal && d.journal[NextGeneration(d)].status == status
  }

  /** The files after a driver ran: whatever it left, resumed drivers included, but committed paths keep theirs. */
  function Rewritten(d: Disk, newFiles: map<Path, C.File>): map<Path, C.File> {
    var committed := d.manifest.fingerprint.entries.Keys;
    (newFiles - committed) + map p | p in d.files && p in committed :: d.files[p]
  }

  lemma RewrittenTells(d: Disk, newFiles: map<Path, C.File>, p: Path)
    ensures var files := Rewritten(d, newFiles);
      if p in d.manifest.fingerprint.entries then (p in files <==> p in d.files) && (p in files ==> files[p] == d.files[p])
      else (p in files <==> p in newFiles) && (p in files ==> files[p] == newFiles[p])
  {
  }

  /** When the code performs each write. A commit writes in the order journal, catalog, state, manifest. */
  ghost predicate Enabled(spec: Spec, d: Disk, e: Event) {
    match e
    case OpenTransaction(restarts) =>
      && Latest(d) == d.manifest.last && restarts <= spec.maxRestarts
      && (ArenaDue(spec, d.runtime.origin, d.manifest.last) ==> d.manifest.last in d.manifest.arenas)
    case FailTransaction => Opened(d, Running)
    case WriteFiles(_) => Opened(d, Running)
    case Publish(_, _) => Opened(d, Running)
    case CommitTransaction => Opened(d, Running) && NextGeneration(d) in d.results && Validates(d.files, d.results[NextGeneration(d)])
    case RegisterGeneration =>
      Latest(d) > d.manifest.last && Latest(d) in d.results && d.catalog == d.manifest.fingerprint && RegisterIn(spec, d, d.catalog, Latest(d)).Ok?
    case AdvanceState(_) =>
      Latest(d) > d.manifest.last && Latest(d) in d.results && RegisterIn(spec, d, d.manifest.fingerprint, Latest(d)) == C.Ok(d.catalog)
    case AdvanceManifest =>
      Latest(d) > d.manifest.last && Latest(d) in d.results && RegisterIn(spec, d, d.manifest.fingerprint, Latest(d)) == C.Ok(d.catalog) && d.runtime.last == Latest(d)
    case SetStatus(_) => true
    case RecordArena => Latest(d) == d.manifest.last
  }

  ghost function Apply(spec: Spec, d: Disk, e: Event): Disk
    requires Enabled(spec, d, e)
  {
    var next := NextGeneration(d);
    match e
    case OpenTransaction(restarts) => WriteTx(d, next, Tx(Running, restarts, spec.schema, spec.profile, map[]))
    case FailTransaction => WriteTx(d, next, d.journal[next].(status := Failed))
    case WriteFiles(newFiles) => d.(files := Rewritten(d, newFiles))
    case Publish(result, newFiles) => d.(results := d.results[next := result], files := Rewritten(d, newFiles))
    case CommitTransaction => WriteTx(d, next, CommittedTx(spec, d.journal[next].restarts, HashesOf(d.files, d.results[next])))
    case RegisterGeneration => WriteCatalog(d, RegisterIn(spec, d, d.catalog, next).value)
    case AdvanceState(status) => WriteRuntime(d, d.runtime.(status := status, last := next))
    case AdvanceManifest => WriteManifest(d, CommitManifest(d, next, d.journal[next].hashes))
    case SetStatus(status) => WriteRuntime(d, d.runtime.(status := status))
    case RecordArena => WriteManifest(d, d.manifest.(arenas := d.manifest.arenas + {d.manifest.last}))
  }

  /** Whenever a transaction was opened, the Arena of every due generation before it had been recorded. */
  ghost predicate ArenasFirst(spec: Spec, d: Disk) {
    forall h, g :: h in d.journal && d.runtime.origin < g < h && ArenaDue(spec, d.runtime.origin, g) ==> g in d.manifest.arenas
  }

  /** No transaction beyond the next generation and no Arena beyond the last one exists. */
  ghost predicate NoneBeyond(d: Disk) {
    && (forall h :: h in d.journal ==> d.runtime.origin < h <= NextGeneration(d))
    && forall h :: h in d.manifest.arenas ==> h <= d.manifest.last
  }

  ghost predicate LineageInv(spec: Spec, d: Disk) {
    Inv(spec, d) && ArenasFirst(spec, d) && NoneBeyond(d)
  }

  // ----- each event keeps the invariant -----

  lemma JournalWriteKeeps(spec: Spec, d: Disk, tx: Tx)
    requires Inv(spec, d) && Latest(d) == d.manifest.last && tx.status != Committed && tx.restarts <= spec.maxRestarts
    ensures Inv(spec, WriteTx(d, NextGeneration(d), tx)) && Latest(WriteTx(d, NextGeneration(d), tx)) == d.manifest.last
  {
    hide TransactionOk, C.Consistent, Validates, HashesOf, TxRecord;
    var next := NextGeneration(d);
    var d' := WriteTx(d, next, tx);
    forall g | d'.runtime.origin < g <= d'.manifest.last && g in d'.journal
      ensures RecordAgrees(spec, d', d'.manifest.fingerprint, g) && CheckpointsKept(d', g)
    {
      assert RecordAgrees(spec, d, d.manifest.fingerprint, g) && CheckpointsKept(d, g);
    }
  }

  lemma PublishKeeps(spec: Spec, d: Disk, d': Disk, newFiles: map<Path, C.File>)
    requires Inv(spec, d) && Latest(d) == d.manifest.last && d' == d.(results := d'.results, files := Rewritten(d, newFiles))
    ensures Inv(spec, d') && Latest(d') == Latest(d)
  {
    hide TransactionOk, C.Consistent, Validates, HashesOf, TxRecord;
    forall g | d'.runtime.origin < g <= d'.manifest.last && g in d'.journal
      ensures RecordAgrees(spec, d', d'.manifest.fingerprint, g) && CheckpointsKept(d', g)
    {
      assert RecordAgrees(spec, d, d.manifest.fingerprint, g) && CheckpointsKept(d, g);
    }
  }

  lemma ValidatedTxOk(spec: Spec, d: Disk, g: nat, restarts: nat)
    requires g in d.results && Validates(d.files, d.results[g])
    ensures TransactionOk(spec, CommittedTx(spec, restarts, HashesOf(d.files, d.results[g])))
  {
    var first := d.results[g].artifacts[0];
    assert Sound(d.files, first);
    assert C.SafeRelative(first.path).value in Named(d.results[g].artifacts);
    assert C.SafeRelative(first.path).value in HashesOf(d.files, d.results[g]);
  }

  lemma CommitKeeps(spec: Spec, d: Disk)
    requires Inv(spec, d) && Enabled(spec, d, CommitTransaction)
    ensures Inv(spec, Apply(spec, d, CommitTransaction)) && Latest(Apply(spec, d, CommitTransaction)) == NextGeneration(d)
  {
    hide TransactionOk, C.Consistent, Validates, HashesOf, TxRecord, RegisterIn;
    var next := NextGeneration(d);
    var d' := Apply(spec, d, CommitTransaction);
    ValidatedTxOk(spec, d, next, d.journal[next].restarts);
    forall g | d'.runtime.origin < g <= d'.manifest.last && g in d'.journal
      ensures RecordAgrees(spec, d', d'.manifest.fingerprint, g) && CheckpointsKept(d', g)
    {
      assert RecordAgrees(spec, d, d.manifest.fingerprint, g) && CheckpointsKept(d, g);
    }
  }

  lemma SettledIgnoresArenas(spec: Spec, d: Disk, d': Disk)
    requires SettledInv(spec, d) && d'.journal == d.journal && d'.files == d.files && d'.runtime.origin == d.runtime.origin
    requires d'.manifest == d.manifest.(arenas := d'.manifest.arenas)
    ensures SettledInv(spec, d')
  {
    hide C.Consistent, TxRecord;
    forall g | d'.runtime.origin < g <= d'.manifest.last && g in d'.journal
      ensures RecordAgrees(spec, d', d'.manifest.fingerprint, g) && CheckpointsKept(d', g)
    {
      assert RecordAgrees(spec, d, d.manifest.fingerprint, g) && CheckpointsKept(d, g);
    }
  }

  lemma StatusKeeps(spec: Spec, d: Disk, status: RunStatus)
    requires Inv(spec, d)
    ensures Inv(spec, Apply(spec, d, SetStatus(status))) && Latest(Apply(spec, d, SetStatus(status))) == Latest(d)
  {
    hide TransactionOk, C.Consistent, Validates, HashesOf, TxRecord, C.Registered;
    SettledSame(spec, d, Apply(spec, d, SetStatus(status)));
  }

  lemma ArenaKeeps(spec: Spec, d: Disk)
    requires Inv(spec, d) && Enabled(spec, d, RecordArena)
    ensures Inv(spec, Apply(spec, d, RecordArena)) && Latest(Apply(spec, d, RecordArena)) == Latest(d)
  {
    hide TransactionOk, C.Consistent, Validates, HashesOf, TxRecord, C.Registered;
    SettledIgnoresArenas(spec, d, Apply(spec, d, RecordArena));
  }

  /** No write, in whatever order crashes arrange them, breaks the invariant or takes back a committed generation. */
  lemma EventKeeps(spec: Spec, d: Disk, e: Event)
    requires Inv(spec, d) && Enabled(spec, d, e)
    ensures Inv(spec, Apply(spec, d, e)) && Latest(d) <= Latest(Apply(spec, d, e))
  {
    hide Inv, RegisterIn, Validates, HashesOf, CommitManifest;
    match e {
      case OpenTransaction(restarts) => JournalWriteKeeps(spec, d, Tx(Running, restarts, spec.schema, spec.profile, map[]));
      case FailTransaction =>
        NextRestarts(spec, d);
        JournalWriteKeeps(spec, d, d.journal[NextGeneration(d)].(status := Failed));
      case WriteFiles(newFiles) => PublishKeeps(spec, d, Apply(spec, d, e), newFiles);
      case Publish(_, newFiles) => PublishKeeps(spec, d, Apply(spec, d, e), newFiles);
      case CommitTransaction => CommitKeeps(spec, d);
      case RegisterGeneration => CatalogWriteKeeps(spec, d, RegisterIn(spec, d, d.catalog, Latest(d)).value);
      case AdvanceState(status) => RuntimeWriteKeeps(spec, d, status);
      case AdvanceManifest => ManifestWriteAgrees(spec, d);
      case SetStatus(status) => StatusKeeps(spec, d, status);
      case RecordArena => ArenaKeeps(spec, d);
    }
  }

  lemma NextRestarts(spec: Spec, d: Disk)
    requires Inv(spec, d)
    ensures forall g :: g in d.journal ==> d.journal[g].restarts <= spec.maxRestarts
  {
    hide TransactionOk, SettledInv, UnderWay;
  }

  /** The same for the order of Arenas and transactions. */
  lemma EventKeepsArenas(spec: Spec, d: Disk, e: Event)
    requires LineageInv(spec, d) && Enabled(spec, d, e)
    ensures LineageInv(spec, Apply(spec, d, e))
  {
    hide Inv, RegisterIn, Validates, HashesOf, CheckpointsIn, ArenaDue;
    EventKeeps(spec, d, e);
    OriginFirst(spec, d);
    var d' := Apply(spec, d, e);
    if e.OpenTransaction? {
      LastIsJournaled(spec, d);
      OpenedLast(spec, d, d');
    } else {
      assert forall h :: h in d'.journal ==> h in d.journal;
      assert d.manifest.arenas <= d'.manifest.arenas <= d.manifest.arenas + {d'.manifest.last} && d'.manifest.last >= d.manifest.last;
      NothingOpened(spec, d, d');
    }
  }

  lemma NothingOpened(spec: Spec, d: Disk, d': Disk)
    requires ArenasFirst(spec, d) && NoneBeyond(d) && d'.runtime.origin == d.runtime.origin
    requires forall h :: h in d'.journal ==> h in d.journal
    requires d.manifest.arenas <= d'.manifest.arenas <= d.manifest.arenas + {d'.manifest.last} && d'.manifest.last >= d.manifest.last
    ensures ArenasFirst(spec, d') && NoneBeyond(d')
  {
    hide ArenaDue;
  }

  /** The new transaction comes after the last committed one, whose Arena was checked just before. */
  lemma OpenedLast(spec: Spec, d: Disk, d': Disk)
    requires ArenasFirst(spec, d) && d'.journal.Keys == d.journal.Keys + {NextGeneration(d)}
    requires d'.runtime == d.runtime && d'.manifest == d.manifest
    requires d.manifest.last > d.runtime.origin ==> d.manifest.last in d.journal
    requires ArenaDue(spec, d.runtime.origin, d.manifest.last) ==> d.manifest.last in d.manifest.arenas
    ensures ArenasFirst(spec, d')
  {
    hide ArenaDue;
    forall h, g | h in d'.journal && d.runtime.origin < g < h && ArenaDue(spec, d.runtime.origin, g) ensures g in d'.manifest.arenas {
      assert h in d.journal || h == NextGeneration(d);
      if h == NextGeneration(d) && g < d.manifest.last {
        assert d.manifest.last in d.journal;
      }
    }
  }

  lemma OriginFirst(spec: Spec, d: Disk)
    requires Inv(spec, d)
    ensures d.runtime.origin <= d.manifest.last
  {
    hide JournalInv, UnderWay, RecordAgrees;
  }

  // ----- histories -----

  /** A lineage as it is created. */
  function Created(origin: nat): Disk {
    var empty := C.Content(map[], map[]);
    Disk(map[], empty, Runtime(GenerationCommit.Created, origin, origin), Manifest(origin, empty, map[], {}), map[], map[])
  }

  /** The disk after these writes; crashes leave no trace, they only decide which write comes next. */
  ghost predicate IsHistory(spec: Spec, origin: nat, events: seq<Event>, disks: seq<Disk>) {
    && |disks| == |events| + 1 && disks[0] == Created(origin)
    && forall i :: 0 <= i < |events| ==> Enabled(spec, disks[i], events[i]) && disks[i + 1] == Apply(spec, disks[i], events[i])
  }

  lemma CreatedInv(spec: Spec, origin: nat)
    ensures LineageInv(spec, Created(origin))
  {
  }

  lemma {:induction false} HistoryInv(spec: Spec, origin: nat, events: seq<Event>, disks: seq<Disk>, i: nat)
    requires IsHistory(spec, origin, events, disks) && i < |disks|
    ensures LineageInv(spec, disks[i]) && disks[i].runtime.origin == origin
    ensures i > 0 ==> Latest(disks[i - 1]) <= Latest(disks[i])
  {
    hide LineageInv, Enabled, Apply, Latest;
    if i == 0 {
      CreatedInv(spec, origin);
    } else {
      HistoryInv(spec, origin, events, disks, i - 1);
      assert Enabled(spec, disks[i - 1], events[i - 1]) && disks[i - 1 + 1] == Apply(spec, disks[i - 1], events[i - 1]);
      EventKeepsArenas(spec, disks[i - 1], events[i - 1]);
      LineageParts(spec, disks[i - 1]);
      EventKeeps(spec, disks[i - 1], events[i - 1]);
      OriginKept(spec, disks[i - 1], events[i - 1]);
    }
  }

  lemma LineageParts(spec: Spec, d: Disk)
    requires LineageInv(spec, d)
    ensures Inv(spec, d)
  {
  }

  lemma OriginKept(spec: Spec, d: Disk, e: Event)
    requires Enabled(spec, d, e)
    ensures Apply(spec, d, e).runtime.origin == d.runtime.origin
  {
    hide RegisterIn, Validates, HashesOf;
  }

  /** Arena before progress: whenever a history opens the transaction of generation g + 1, the Arena of every due
      generation after the origin up to g is already recorded. */
  lemma ArenaBeforeProgress(spec: Spec, origin: nat, events: seq<Event>, disks: seq<Disk>, i: nat, g: nat)
    requires IsHistory(spec, origin, events, disks) && i < |events| && events[i].OpenTransaction?
    requires origin < g <= disks[i].manifest.last && ArenaDue(spec, origin, g)
    ensures g in disks[i].manifest.arenas
  {
    hide Inv, RegisterIn;
    HistoryInv(spec, origin, events, disks, i);
    assert Enabled(spec, disks[i], events[i]);
    if g < disks[i].manifest.last {
      LastIsJournaled(spec, disks[i]);
      assert disks[i].manifest.last in disks[i].journal;
    }
  }

  lemma LastIsJournaled(spec: Spec, d: Disk)
    requires Inv(spec, d)
    ensures d.manifest.last > d.runtime.origin ==> d.manifest.last in d.journal
  {
    hide TransactionOk, SettledInv, UnderWay;
  }

  // ----- the commit tail and recovery as such writes -----

  /** A crash after any number of writes of the commit tail leaves the invariant. */
  lemma TailPrefix(spec: Spec, d: Disk, k: nat)
    requires Inv(spec, d) && Enabled(spec, d, CommitTransaction) && k <= 4
    ensures Inv(spec, Tail(spec, d, NextGeneration(d), k))
    ensures k > 0 ==> Latest(Tail(spec, d, NextGeneration(d), k)) == NextGeneration(d)
    ensures k == 4 && RegisterIn(spec, Tail(spec, d, NextGeneration(d), 1), d.catalog, NextGeneration(d)).Ok? ==>
              Agreed(spec, Tail(spec, d, NextGeneration(d), 4))
  {
    hide Inv, RegisterIn, HashesOf, Validates, CommitManifest;
    var next := NextGeneration(d);
    if k > 0 {
      CommitKeeps(spec, d);
      var d1 := Tail(spec, d, next, 1);
      assert d1 == Apply(spec, d, CommitTransaction);
      NotYetCataloged(spec, d);
      var registered := RegisterIn(spec, d1, d.catalog, next);
      if registered.Ok? && k > 1 {
        CatalogWriteKeeps(spec, d1, registered.value);
        var d2 := WriteCatalog(d1, registered.value);
        RegisterSame(spec, d1, d2, d.catalog, next);
        if k > 2 {
          RuntimeWriteKeeps(spec, d2, d2.runtime.status);
          var d3 := WriteRuntime(d2, d2.runtime.(last := next));
          RegisterSame(spec, d1, d3, d.catalog, next);
          if k > 3 {
            ManifestWriteAgrees(spec, d3);
          }
        }
      }
    }
  }

  lemma NotYetCataloged(spec: Spec, d: Disk)
    requires Inv(spec, d) && Latest(d) == d.manifest.last
    ensures d.catalog == d.manifest.fingerprint && d.runtime.last == d.manifest.last
  {
    hide JournalInv, SettledInv;
  }

  lemma RegisterSame(spec: Spec, d: Disk, d': Disk, content: C.Content, g: nat)
    requires g in d.journal && g in d.results && d'.journal == d.journal && d'.results == d.results && d'.files == d.files
    ensures RegisterIn(spec, d', content, g) == RegisterIn(spec, d, content, g)
  {
    hide C.Registered;
  }

  /** A crash after any number of writes of recovery leaves the invariant, and all writes agree everything
      without touching the journal. */
  lemma RecoveryPrefix(spec: Spec, d: Disk, k: nat)
    requires Inv(spec, d) && Recovery(spec, d).Finish? && k <= WriteCount(Recovery(spec, d))
    ensures var d' := AfterWrites(d, Recovery(spec, d), k);
      && Inv(spec, d') && d'.journal == d.journal && Latest(d') == Latest(d)
      && (k == WriteCount(Recovery(spec, d)) ==> Agreed(spec, d'))
      && (k < WriteCount(Recovery(spec, d)) ==> Recovery(spec, d').Finish? && AfterRecovery(d', Recovery(spec, d')) == AfterRecovery(d, Recovery(spec, d)))
  {
    hide Inv, RegisterIn, HashesOf, Validates, CommitManifest, Recovery, CheckpointsIn;
    FinishMeansUnderWay(spec, d);
    RecoveryIs(spec, d);
    UnderWayFacts(spec, d);
    var next, r := Latest(d), Recovery(spec, d);
    var content := r.manifest.fingerprint;
    var d1 := WriteCatalog(d, content);
    CatalogWriteKeeps(spec, d, content);
    RegisterSame(spec, d, d1, d.manifest.fingerprint, next);
    RuntimeWriteKeeps(spec, d1, RecoveryRequired);
    var d2 := WriteRuntime(d1, r.runtime);
    RegisterSame(spec, d, d2, d.manifest.fingerprint, next);
    ManifestWriteAgrees(spec, d2);
    assert d2.runtime == d1.runtime.(status := RecoveryRequired, last := next);
    CommitManifestIs(d2, next, content);
    PrefixIs(d, r, k);
    if k < WriteCount(r) {
      Resumes(spec, d, AfterWrites(d, r, k), r);
    }
  }

  lemma CommitManifestIs(d: Disk, g: nat, content: C.Content)
    requires g in d.journal && d.catalog == content
    ensures CommitManifest(d, g, d.journal[g].hashes) ==
            d.manifest.(last := g, fingerprint := content, checkpoints := d.manifest.checkpoints + CheckpointsIn(d.journal[g].hashes))
  {
  }

  /** The prefixes are the four disks met on the way. */
  lemma PrefixIs(d: Disk, r: Recovered, k: nat)
    requires r.Finish? && k <= WriteCount(r)
    requires r.catalogs == [] ==> d.catalog == r.manifest.fingerprint
    requires r.catalogs == [] || r.catalogs == [r.manifest.fingerprint]
    ensures var d1 := WriteCatalog(d, r.manifest.fingerprint);
      AfterWrites(d, r, k) == if k == WriteCount(r) then WriteManifest(WriteRuntime(d1, r.runtime), r.manifest)
                              else if k == |r.catalogs| + 1 then WriteRuntime(d1, r.runtime)
                              else if k == |r.catalogs| then d1 else d
  {
    assert d.catalog == r.manifest.fingerprint ==> WriteCatalog(d, r.manifest.fingerprint) == d;
  }

  lemma FinishMeansUnderWay(spec: Spec, d: Disk)
    requires Inv(spec, d) && Recovery(spec, d).Finish?
    ensures Latest(d) > d.manifest.last && Latest(d) <= 9999
  {
    hide Reconcile, TransactionOk, SettledInv, UnderWay, CheckpointsOf, Pending;
    PendingIs(spec, d);
  }

  /** A recovery started over in the middle of another one ends on the same disk. */
  lemma Resumes(spec: Spec, d: Disk, d': Disk, r: Recovered)
    requires Inv(spec, d) && r == Recovery(spec, d) && r.Finish? && Inv(spec, d')
    requires d'.journal == d.journal && d'.results == d.results && d'.files == d.files && d'.manifest == d.manifest
    requires d'.catalog == d.catalog || d'.catalog == r.manifest.fingerprint
    requires d'.runtime == d.runtime || d'.runtime == r.runtime
    ensures Recovery(spec, d').Finish? && AfterRecovery(d', Recovery(spec, d')) == AfterRecovery(d, r)
  {
    hide Inv, RegisterIn, HashesOf, Validates, Recovery, CheckpointsIn;
    FinishMeansUnderWay(spec, d);
    RecoveryIs(spec, d);
    RecoveryIs(spec, d');
    UnderWayFacts(spec, d);
    UnderWayFacts(spec, d');
    RegisterSame(spec, d, d', d.manifest.fingerprint, Latest(d));
    var r' := Recovery(spec, d');
    PrefixIs(d, r, WriteCount(r));
    PrefixIs(d', r', WriteCount(r'));
  }

  /** After recovery, a second one finds nothing to do. */
  lemma SecondRecoveryIsIdle(spec: Spec, d: Disk)
    requires Agreed(spec, d)
    ensures Recovery(spec, d) == Nothing
  {
    hide TransactionOk, RecordAgrees, C.Consistent, CheckpointsKept;
    PendingIs(spec, d);
    assert Reconcile(spec, d, d.catalog, []) == Reconciled([], d.catalog);
  }

  /** Recovery of any disk a history can leave: it ends in agreement on the last committed generation exactly when
      there is nothing under way, or the generation under way has at most four digits and can enter the catalog. */
  lemma RecoveryAgrees(spec: Spec, d: Disk)
    requires Inv(spec, d)
    ensures var d' := AfterRecovery(d, Recovery(spec, d));
      && d'.journal == d.journal
      && (Agreed(spec, d') && d'.manifest.last == Latest(d) <==>
          Latest(d) == d.manifest.last || (Latest(d) <= 9999 && Publishable(d)))
  {
    hide Inv, RegisterIn, Recovery, WriteCount, AfterWrites;
    if Latest(d) == d.manifest.last {
      SecondRecoveryIsIdle(spec, d);
    } else {
      UnderWayFacts(spec, d);
      Registrable(spec, d);
      if Latest(d) <= 9999 {
        RecoveryIs(spec, d);
        if Recovery(spec, d).Finish? {
          RecoveryPrefix(spec, d, WriteCount(Recovery(spec, d)));
        }
      } else {
        NothingBeyond9999(spec, d);
      }
    }
  }

  /** A validated result enters a catalog exactly when it declares what the catalog needs. */
  lemma ValidatedEnters(files: map<Path, C.File>, entries: map<Path, C.Identity>, r: DriverResult)
    requires Validates(files, r)
    ensures C.NoConflict(files, entries, r.artifacts) <==> Declared(entries, r.artifacts)
  {
    var artifacts := r.artifacts;
    forall i | 0 <= i < |artifacts|
      ensures C.Checked(files, artifacts[i]).Ok? <==> Declares(artifacts[i])
      ensures Declares(artifacts[i]) ==> (C.Compatible(entries, C.Checked(files, artifacts[i]).value) <==> AsRecorded(entries, artifacts[i]))
    {
      DeclaredIdentity(files, artifacts[i]);
    }
    forall i, j | 0 <= i < j < |artifacts| && Declares(artifacts[i]) && Declares(artifacts[j])
      ensures C.Checked(files, artifacts[i]).value.path == C.Checked(files, artifacts[j]).value.path <==> SamePath(artifacts[i], artifacts[j])
      ensures SamePath(artifacts[i], artifacts[j]) ==>
                (C.Checked(files, artifacts[i]).value == C.Checked(files, artifacts[j]).value <==>
                 artifacts[i].(path := "") == artifacts[j].(path := ""))
    {
      DeclaredIdentity(files, artifacts[i]);
      DeclaredIdentity(files, artifacts[j]);
    }
  }

  lemma DeclaredIdentity(files: map<Path, C.File>, a: C.Artifact)
    requires Sound(files, a)
    ensures C.Checked(files, a).Ok? <==> Declares(a)
    ensures Declares(a) ==> C.Checked(files, a) == C.Ok(C.Identity(C.SafeRelative(a.path).value, a.sha.value, a.size.value, a.extra))
  {
  }

  /** Registration of the generation under way fails exactly when an artifact leaves out its hash or size, or a path
      gets two identities. */
  lemma Registrable(spec: Spec, d: Disk)
    requires Inv(spec, d) && Latest(d) > d.manifest.last && Latest(d) in d.journal && Latest(d) in d.results
    ensures RegisterIn(spec, d, d.manifest.fingerprint, Latest(d)).Ok? <==> Publishable(d)
  {
    hide JournalInv, C.NoConflict, C.Registered, Declared, Validates;
    ValidatedEnters(d.files, d.manifest.fingerprint.entries, d.results[Latest(d)]);
    C.RegistrationSucceeds(d.files, d.manifest.fingerprint, Latest(d), d.results[Latest(d)].artifacts, Some(TxRecord(spec, Latest(d), d.journal[Latest(d)])));
    UnderWayFacts(spec, d);
  }

  /** Beyond four digits recovery never finishes anything. */
  lemma NothingBeyond9999(spec: Spec, d: Disk)
    requires Inv(spec, d) && Latest(d) > 9999 && Latest(d) > d.manifest.last
    ensures !Recovery(spec, d).Finish?
  {
    hide Reconcile, TransactionOk, SettledInv, UnderWay, CheckpointsOf, Pending;
    PendingIs(spec, d);
  }

  // ----- the theorem, and the ways it can fail -----

  /** After a crash anywhere in any history, one complete recovery leaves journal, catalog, state and manifest in
      agreement on the last committed generation, unless its number needs five digits or an artifact leaves out
      its hash or size or conflicts; the journal is untouched, so nothing committed is dropped and nothing running or failed is promoted; and a
      second recovery does nothing. */
  lemma CrashThenRecover(spec: Spec, origin: nat, events: seq<Event>, disks: seq<Disk>, i: nat)
    requires IsHistory(spec, origin, events, disks) && i < |disks|
    requires Latest(disks[i]) > disks[i].manifest.last ==> Latest(disks[i]) <= 9999 && Publishable(disks[i])
    ensures var d, d' := disks[i], AfterRecovery(disks[i], Recovery(spec, disks[i]));
      && Agreed(spec, d') && d'.journal == d.journal && d'.manifest.last == Latest(d)
      && (forall g :: origin < g <= d'.manifest.last ==> g in d'.journal && d'.journal[g].status == Committed)
      && (forall g :: g in d'.journal && d'.journal[g].status == Committed ==> g <= d'.manifest.last)
      && Recovery(spec, d') == Nothing
  {
    hide Inv, Publishable, UnderWay, Recovery, AfterRecovery;
    var d := disks[i];
    HistoryInv(spec, origin, events, disks, i);
    LineageParts(spec, d);
    RecoveryAgrees(spec, d);
    var d' := AfterRecovery(d, Recovery(spec, d));
    SecondRecoveryIsIdle(spec, d');
    AgreedJournal(spec, d');
    RecoveryKeepsOrigin(spec, d);
  }

  lemma RecoveryKeepsOrigin(spec: Spec, d: Disk)
    ensures AfterRecovery(d, Recovery(spec, d)).runtime.origin == d.runtime.origin
  {
    hide Reconcile, Pending, CheckpointsOf;
  }

  lemma AgreedJournal(spec: Spec, d: Disk)
    requires Agreed(spec, d)
    ensures forall g :: d.runtime.origin < g <= d.manifest.last ==> g in d.journal && d.journal[g].status == Committed
    ensures forall g :: g in d.journal && d.journal[g].status == Committed ==> g <= d.manifest.last
  {
    hide TransactionOk, SettledInv, UnderWay;
  }

  /** A history of one generation up to its journal write. */
  ghost function Journaled(spec: Spec, origin: nat, result: DriverResult, files: map<Path, C.File>): seq<Disk> {
    var d0 := Created(origin);
    var d1 := WriteTx(d0, origin + 1, Tx(Running, 0, spec.schema, spec.profile, map[]));
    var d2 := d1.(results := map[origin + 1 := result], files := files);
    [d0, d1, d2, WriteTx(d2, origin + 1, CommittedTx(spec, 0, HashesOf(files, result)))]
  }

  lemma JournaledHistory(spec: Spec, origin: nat, result: DriverResult, files: map<Path, C.File>)
    requires Validates(files, result)
    ensures IsHistory(spec, origin, [OpenTransaction(0), Publish(result, files), CommitTransaction], Journaled(spec, origin, result, files))
    ensures Latest(Journaled(spec, origin, result, files)[3]) == origin + 1
  {
    hide Validates, HashesOf;
    var disks := Journaled(spec, origin, result, files);
    var events := [OpenTransaction(0), Publish(result, files), CommitTransaction];
    assert Enabled(spec, disks[0], events[0]) && disks[1] == Apply(spec, disks[0], events[0]);
    assert Rewritten(disks[1], files) == files;
    assert Enabled(spec, disks[1], events[1]) && disks[2] == Apply(spec, disks[1], events[1]);
    assert Enabled(spec, disks[2], events[2]) && disks[3] == Apply(spec, disks[2], events[2]);
  }

  /** Generation 10000: whatever valid result it publishes, a crash right after its journal write leaves a committed
      transaction that the glob does not match; recovery reports nothing to do and the manifest stays at 9999. */
  lemma FiveDigitsAreMissed(spec: Spec, result: DriverResult, files: map<Path, C.File>)
    requires Validates(files, result)
    ensures var d := Journaled(spec, 9999, result, files)[3];
      && IsHistory(spec, 9999, [OpenTransaction(0), Publish(result, files), CommitTransaction], Journaled(spec, 9999, result, files))
      && Latest(d) == 10000 && Recovery(spec, d) == Nothing && d.manifest.last == 9999
  {
    hide Validates, HashesOf, IsHistory;
    JournaledHistory(spec, 9999, result, files);
    var d := Journaled(spec, 9999, result, files)[3];
    assert PendingFrom(d, 10000) == [];
    assert Reconcile(spec, d, d.catalog, []) == Reconciled([], d.catalog);
  }

  /** A result that lists one file twice with different further fields passes validation and is journaled, but can
      neither be registered nor recovered. */
  lemma ConflictIsJournaled(spec: Spec, files: map<Path, C.File>, a: C.Artifact, b: C.Artifact)
    requires Sound(files, a) && Declares(a) && b.Artifact? && b == a.(extra := b.extra) && b.extra != a.extra
    ensures var result := DriverResult(true, true, [a, b]);
      var d := Journaled(spec, 0, result, files)[3];
      && IsHistory(spec, 0, [OpenTransaction(0), Publish(result, files), CommitTransaction], Journaled(spec, 0, result, files))
      && Recovery(spec, d) == Refused([], CatalogRefused(C.IdentityChanged))
  {
    hide IsHistory, Recovery, Inv, C.Checked;
    var result := DriverResult(true, true, [a, b]);
    DeclaredIdentity(files, a);
    SameChecks(files, a, b);
    JournaledHistory(spec, 0, result, files);
    var disks := Journaled(spec, 0, result, files);
    var d := disks[3];
    HistoryInv(spec, 0, [OpenTransaction(0), Publish(result, files), CommitTransaction], disks, 3);
    LineageParts(spec, d);
    RecoveryIs(spec, d);
    ConflictRefused(files, a, b);
  }

  /** A result whose artifact leaves out its hash or its size passes validation, which fills in what it finds, and is
      journaled; the catalog refuses it, then and in every recovery. */
  lemma UndeclaredIsJournaled(spec: Spec, files: map<Path, C.File>, a: C.Artifact)
    requires Sound(files, a) && !Declares(a)
    ensures var result := DriverResult(true, true, [a]);
      var d := Journaled(spec, 0, result, files)[3];
      && IsHistory(spec, 0, [OpenTransaction(0), Publish(result, files), CommitTransaction], Journaled(spec, 0, result, files))
      && RegisterIn(spec, d, d.catalog, 1) == C.Failed(if a.sha.None? then C.MalformedSha else C.MalformedSize)
      && Recovery(spec, d) == Refused([], CatalogRefused(if a.sha.None? then C.MalformedSha else C.MalformedSize))
  {
    hide IsHistory, Recovery, Inv;
    var result := DriverResult(true, true, [a]);
    JournaledHistory(spec, 0, result, files);
    var disks := Journaled(spec, 0, result, files);
    var d := disks[3];
    HistoryInv(spec, 0, [OpenTransaction(0), Publish(result, files), CommitTransaction], disks, 3);
    LineageParts(spec, d);
    RecoveryIs(spec, d);
    UndeclaredRefused(files, a);
  }

  lemma UndeclaredRefused(files: map<Path, C.File>, a: C.Artifact)
    requires Sound(files, a) && !Declares(a)
    ensures C.EnterAll(files, map[], [a]) == C.Failed(if a.sha.None? then C.MalformedSha else C.MalformedSize)
  {
    assert [a][..0] == [];
    assert C.EnterAll(files, map[], []) == C.Ok(map[]);
  }

  lemma SameChecks(files: map<Path, C.File>, a: C.Artifact, b: C.Artifact)
    requires a.Artifact? && b.Artifact? && b == a.(extra := b.extra) && C.Checked(files, a).Ok?
    ensures C.Checked(files, b) == C.Ok(C.Checked(files, a).value.(extra := b.extra)) && C.Checked(files, a).value.extra == a.extra
  {
  }

  lemma ConflictRefused(files: map<Path, C.File>, a: C.Artifact, b: C.Artifact)
    requires C.Checked(files, a).Ok? && C.Checked(files, b).Ok? && C.Checked(files, a).value.path == C.Checked(files, b).value.path
    requires C.Checked(files, a).value != C.Checked(files, b).value
    ensures C.EnterAll(files, map[], [a, b]) == C.Failed(C.IdentityChanged)
  {
    hide C.Checked;
    assert [a, b][..1] == [a];
    assert [a][..0] == [];
    assert C.EnterAll(files, map[], []) == C.Ok(map[]);
    assert C.EnterAll(files, map[], [a]).Ok?;
  }
}
