/** Crash recovery of the generation commit: every prefix of its writes keeps the invariant, and recovery agrees everything. */
module CommitRecovery {
  import opened Options
  import C = ArtifactCatalog
  import opened GenerationCommit

  // ----- what recovery finds -----

  lemma {:induction false} NothingFrom(d: Disk, g: nat)
    requires forall h :: h >= g && h in d.journal ==> d.journal[h].status != Committed
    ensures PendingFrom(d, g) == []
    decreases 10000 - g
  {
    if g <= 9999 {
      NothingFrom(d, g + 1);
    }
  }

  lemma NextPending(d: Disk, g: nat)
    ensures PendingFrom(d, g) == if g > 9999 then [] else (if g in d.journal && d.journal[g].status == Committed then [g] else []) + PendingFrom(d, g + 1)
  {
  }

  /** The glob finds the generation under way exactly when its number has four digits. */
  lemma PendingIs(spec: Spec, d: Disk)
    requires JournalInv(spec, d)
    ensures Pending(d) == if Latest(d) > d.manifest.last && Latest(d) <= 9999 then [Latest(d)] else []
    ensures MatchesGlob(TxName(Latest(d))) <==> Latest(d) <= 9999
  {
    hide TransactionOk, TxName, MatchesGlob, PendingFrom;
    var next := d.manifest.last + 1;
    NothingFrom(d, next + 1);
    if Latest(d) == d.manifest.last {
      NothingFrom(d, next);
    }
    NextPending(d, next);
    GlobSees(Latest(d));
  }

  /** Registering a validated result makes the catalog agree with the journal. */
  lemma RegisteredAgrees(spec: Spec, d: Disk, content: C.Content, g: nat)
    requires g in d.journal && g in d.results && Validates(d.files, d.results[g]) && d.journal[g].hashes == HashesOf(d.files, d.results[g])
    requires RegisterIn(spec, d, content, g).Ok?
    ensures RecordAgrees(spec, d, RegisterIn(spec, d, content, g).value, g)
  {
    hide C.EnterAll, C.Checked, Validates, Named, TxRecord;
    var artifacts := d.results[g].artifacts;
    var registered := RegisterIn(spec, d, content, g).value;
    NamedChecked(d.files, content.entries, artifacts);
    assert d.journal[g].hashes.Keys == Named(artifacts);
    forall p | p in d.journal[g].hashes
      ensures p in d.files && p in registered.entries && registered.entries[p].sha == d.files[p].digest && registered.entries[p].size == d.files[p].size
    {
      EnteredAsFile(d.files, content.entries, d.results[g], registered.entries, p);
    }
  }

  lemma EnteredAsFile(files: map<Path, C.File>, entries: map<Path, C.Identity>, r: DriverResult, after: map<Path, C.Identity>, p: Path)
    requires Validates(files, r) && C.EnterAll(files, entries, r.artifacts) == C.Ok(after) && p in C.PathsOf(files, r.artifacts)
    ensures p in files && p in after && after[p].sha == files[p].digest && after[p].size == files[p].size
  {
    hide C.EnterAll, C.Checked;
    C.EnterAllExactly(files, entries, r.artifacts);
    var i := C.PathFrom(files, r.artifacts, p);
    assert Sound(files, r.artifacts[i]);
    C.EarlierIdentity(files, r.artifacts, after, i);
    CheckedIs(files, r.artifacts[i]);
  }

  lemma CheckedIs(files: map<Path, C.File>, a: C.Artifact)
    requires C.Checked(files, a).Ok? && Sound(files, a)
    ensures var identity := C.Checked(files, a).value;
      identity.path in files && identity.sha == files[identity.path].digest && identity.size == files[identity.path].size
  {
  }

  /** What entered the catalog is what the result names. */
  lemma NamedChecked(files: map<Path, C.File>, entries: map<Path, C.Identity>, artifacts: seq<C.Artifact>)
    requires C.EnterAll(files, entries, artifacts).Ok?
    ensures Named(artifacts) == C.PathsOf(files, artifacts) && forall p :: p in Named(artifacts) ==> p in files
  {
    hide C.EnterAll, C.Enter;
    C.EnterAllSucceeds(files, entries, artifacts);
    forall a | a in artifacts ensures C.Checked(files, a).Ok? {
      var i :| 0 <= i < |artifacts| && artifacts[i] == a;
    }
  }

  /** What was settled stays settled when the next generation enters the catalog. */
  lemma SettledStays(spec: Spec, d: Disk, content: C.Content, next: nat, g: nat)
    requires g in d.journal && next in d.journal && next in d.results && g != next
    requires C.Consistent(content) && RegisterIn(spec, d, content, next).Ok? && RecordAgrees(spec, d, content, g)
    ensures RecordAgrees(spec, d, RegisterIn(spec, d, content, next).value, g)
  {
    hide C.Registered, C.Consistent, TxRecord;
    C.RegistrationKeeps(d.files, content, next, d.results[next].artifacts, Some(TxRecord(spec, next, d.journal[next])));
  }

  /** Recovery of a generation under way: registered already, registrable, or neither. */
  ghost predicate RecoversTo(spec: Spec, d: Disk, r: Recovered)
    requires Latest(d) > d.manifest.last && Latest(d) in d.journal && Latest(d) in d.results
  {
    var next := Latest(d);
    var registered := RegisterIn(spec, d, d.manifest.fingerprint, next);
    match registered
    case Failed(why) => r == Refused([], CatalogRefused(why))
    case Ok(content) =>
      r == Finish(if d.catalog == content then [] else [content],
                  d.runtime.(status := RecoveryRequired, last := next),
                  d.manifest.(last := next, fingerprint := content, checkpoints := d.manifest.checkpoints + CheckpointsIn(d.journal[next].hashes)))
  }

  lemma UnderWayFacts(spec: Spec, d: Disk)
    requires Inv(spec, d) && Latest(d) > d.manifest.last
    ensures Latest(d) == d.manifest.last + 1 && Latest(d) in d.journal && Latest(d) in d.results
    ensures TransactionOk(spec, d.journal[Latest(d)])
    ensures Latest(d) !in d.manifest.fingerprint.generations
    ensures RegisterIn(spec, d, d.manifest.fingerprint, Latest(d)).Ok? ==>
              Latest(d) in RegisterIn(spec, d, d.manifest.fingerprint, Latest(d)).value.generations
    ensures d.catalog == d.manifest.fingerprint || RegisterIn(spec, d, d.manifest.fingerprint, Latest(d)) == C.Ok(d.catalog)
  {
    hide TransactionOk, C.EnterAll, RecordAgrees, C.Consistent, Validates, CheckpointsKept;
  }

  lemma ReconciledOne(spec: Spec, d: Disk)
    requires Inv(spec, d) && Latest(d) > d.manifest.last
    ensures Latest(d) in d.journal && Latest(d) in d.results
    ensures Reconcile(spec, d, d.catalog, [Latest(d)]) ==
            match RegisterIn(spec, d, d.manifest.fingerprint, Latest(d))
            case Failed(why) => Unreconciled([], CatalogRefused(why))
            case Ok(content) => Reconciled(if d.catalog == content then [] else [content], content)
  {
    hide TransactionOk, RegisterIn, RecordAgrees, C.Consistent, Validates, CheckpointsKept, HashesOf, JournalInv, SettledInv;
    UnderWayFacts(spec, d);
    var next := Latest(d);
    var registered := RegisterIn(spec, d, d.manifest.fingerprint, next);
    if registered.Ok? {
      RegisteredAgrees(spec, d, d.manifest.fingerprint, next);
    }
    assert [next][1..] == [];
  }

  lemma RecoveryIs(spec: Spec, d: Disk)
    requires Inv(spec, d) && Latest(d) > d.manifest.last && Latest(d) <= 9999
    ensures Latest(d) in d.journal && Latest(d) in d.results && RecoversTo(spec, d, Recovery(spec, d))
  {
    hide TransactionOk, RegisterIn, RecordAgrees, C.Consistent, Validates, HashesOf, CheckpointsKept, Reconcile, Pending, CheckpointsOf;
    UnderWayFacts(spec, d);
    PendingIs(spec, d);
    ReconciledOne(spec, d);
    CatalogJournaled(spec, d);
    OnlyCheckpoints(d, Latest(d));
  }

  lemma OnlyCheckpoints(d: Disk, g: nat)
    requires g in d.journal
    ensures CheckpointsOf(d, [g]) == CheckpointsIn(d.journal[g].hashes)
  {
    assert [g][1..] == [];
    assert CheckpointsOf(d, []) == map[];
  }

  lemma CatalogJournaled(spec: Spec, d: Disk)
    requires Inv(spec, d)
    ensures forall g :: g in d.catalog.generations && g > d.manifest.last ==> g == Latest(d)
  {
    hide TransactionOk, RecordAgrees, C.Consistent, Validates, HashesOf, CheckpointsKept, C.EnterAll;
  }

  // ----- every prefix of the writes keeps the invariant -----

  /** The next generation enters the catalog. */
  lemma CatalogWriteKeeps(spec: Spec, d: Disk, content: C.Content)
    requires Inv(spec, d) && Latest(d) > d.manifest.last && Latest(d) in d.journal && Latest(d) in d.results
    requires RegisterIn(spec, d, d.manifest.fingerprint, Latest(d)) == C.Ok(content)
    ensures Inv(spec, WriteCatalog(d, content)) && Latest(WriteCatalog(d, content)) == Latest(d)
  {
    hide TransactionOk, C.Registered, C.Consistent, Validates, HashesOf, TxRecord, CheckpointsIn;
    var d' := WriteCatalog(d, content);
    SettledSame(spec, d, d');
  }

  /** Neither the state nor the catalog field matters to what is settled. */
  lemma SettledSame(spec: Spec, d: Disk, d': Disk)
    requires SettledInv(spec, d) && d'.journal == d.journal && d'.manifest == d.manifest && d'.files == d.files && d'.runtime.origin == d.runtime.origin
    ensures SettledInv(spec, d')
  {
    hide C.Consistent, TxRecord;
    forall g | d'.runtime.origin < g <= d'.manifest.last && g in d'.journal
      ensures RecordAgrees(spec, d', d'.manifest.fingerprint, g) && CheckpointsKept(d', g)
    {
      assert RecordAgrees(spec, d, d.manifest.fingerprint, g) && CheckpointsKept(d, g);
    }
  }

  /** The state moves to the generation once it is in the catalog. */
  lemma RuntimeWriteKeeps(spec: Spec, d: Disk, status: RunStatus)
    requires Inv(spec, d) && Latest(d) > d.manifest.last && Latest(d) in d.journal && Latest(d) in d.results
    requires RegisterIn(spec, d, d.manifest.fingerprint, Latest(d)) == C.Ok(d.catalog)
    ensures var d' := WriteRuntime(d, d.runtime.(status := status, last := Latest(d))); Inv(spec, d') && Latest(d') == Latest(d)
  {
    hide TransactionOk, C.Registered, C.Consistent, Validates, HashesOf, TxRecord, CheckpointsIn;
    SettledSame(spec, d, WriteRuntime(d, d.runtime.(status := status, last := Latest(d))));
  }

  /** The manifest follows last, and then everything agrees. */
  lemma ManifestWriteAgrees(spec: Spec, d: Disk)
    requires Inv(spec, d) && Latest(d) > d.manifest.last && Latest(d) in d.journal && Latest(d) in d.results
    requires RegisterIn(spec, d, d.manifest.fingerprint, Latest(d)) == C.Ok(d.catalog) && d.runtime.last == Latest(d)
    ensures var d' := WriteManifest(d, CommitManifest(d, Latest(d), d.journal[Latest(d)].hashes));
      Agreed(spec, d') && Latest(d') == Latest(d)
  {
    hide TransactionOk, C.Registered, C.Consistent, Validates, HashesOf, TxRecord, RegisterIn, RecordAgrees, CheckpointsIn, CheckpointsKept;
    var next := Latest(d);
    var d' := WriteManifest(d, CommitManifest(d, next, d.journal[next].hashes));
    NewlySettled(spec, d, d');
    ManifestJournal(spec, d, d');
  }

  lemma ManifestJournal(spec: Spec, d: Disk, d': Disk)
    requires JournalInv(spec, d) && Latest(d) == d.manifest.last + 1 && Latest(d) > d.runtime.origin
    requires d'.journal == d.journal && d'.runtime == d.runtime && d'.manifest.last == Latest(d)
    ensures JournalInv(spec, d') && Latest(d') == d'.manifest.last
  {
    hide TransactionOk;
  }

  lemma NewlySettled(spec: Spec, d: Disk, d': Disk)
    requires Inv(spec, d) && Latest(d) == d.manifest.last + 1 && Latest(d) in d.journal && Latest(d) in d.results
    requires RegisterIn(spec, d, d.manifest.fingerprint, Latest(d)) == C.Ok(d.catalog)
    requires d' == WriteManifest(d, CommitManifest(d, Latest(d), d.journal[Latest(d)].hashes))
    ensures SettledInv(spec, d')
  {
    hide TransactionOk, C.Registered, C.Consistent, Validates, HashesOf, TxRecord, CheckpointsIn;
    var next := Latest(d);
    C.RegistrationKeeps(d.files, d.manifest.fingerprint, next, d.results[next].artifacts, Some(TxRecord(spec, next, d.journal[next])));
    RegisteredKeys(spec, d);
    RegisteredAgrees(spec, d, d.manifest.fingerprint, next);
    assert RecordAgreesHashes(d, next);
    forall g | d'.runtime.origin < g <= d'.manifest.last && g in d'.journal
      ensures RecordAgrees(spec, d', d'.manifest.fingerprint, g) && CheckpointsKept(d', g)
    {
      if g == next {
        AgreesElsewhere(spec, d, d', d.catalog, g);
      } else {
        assert RecordAgrees(spec, d, d.manifest.fingerprint, g) && CheckpointsKept(d, g);
        SettledStays(spec, d, d.manifest.fingerprint, next, g);
        AgreesElsewhere(spec, d, d', d.catalog, g);
      }
      CheckpointsMerged(spec, d, d', g);
    }
  }

  lemma RegisteredKeys(spec: Spec, d: Disk)
    requires Latest(d) in d.journal && Latest(d) in d.results && RegisterIn(spec, d, d.manifest.fingerprint, Latest(d)).Ok?
    ensures forall g :: g in RegisterIn(spec, d, d.manifest.fingerprint, Latest(d)).value.generations <==>
              g in d.manifest.fingerprint.generations || g == Latest(d)
  {
    hide C.EnterAll, TxRecord;
  }

  lemma AgreesElsewhere(spec: Spec, d: Disk, d': Disk, content: C.Content, g: nat)
    requires g in d.journal && RecordAgrees(spec, d, content, g) && d'.journal == d.journal && d'.files == d.files
    ensures RecordAgrees(spec, d', content, g)
  {
    hide TxRecord;
  }

  /** The checkpoint hashes of every settled generation are in the merged map: the catalog gives each path one digest. */
  lemma CheckpointsMerged(spec: Spec, d: Disk, d': Disk, g: nat)
    requires Latest(d) in d.journal && d' == WriteManifest(d, CommitManifest(d, Latest(d), d.journal[Latest(d)].hashes)) && g in d.journal
    requires RecordAgrees(spec, d, d.catalog, g)
    requires g == Latest(d) || CheckpointsKept(d, g)
    requires g != Latest(d) ==> RecordAgreesHashes(d, Latest(d))
    ensures CheckpointsKept(d', g)
  {
    hide TxRecord;
  }

  predicate RecordAgreesHashes(d: Disk, g: nat)
    requires g in d.journal
  {
    forall p :: p in d.journal[g].hashes ==> p in d.catalog.entries && d.catalog.entries[p].sha == d.journal[g].hashes[p]
  }

  // ----- recovery fails closed -----

  /** A driver result is refused exactly when it is incomplete, names nothing, or names something that is not a safe
      path, not there, or not the file it declares. */
  lemma RefusedResult(files: map<Path, C.File>, r: DriverResult)
    ensures !Validates(files, r) <==>
      || !r.completed || r.artifacts == []
      || exists i :: 0 <= i < |r.artifacts| &&
           var a := r.artifacts[i];
           || a.NotAnObject? || C.SafeRelative(a.path).None? || C.SafeRelative(a.path).value !in files
           || (a.size.Some? && a.size.value != files[C.SafeRelative(a.path).value].size)
           || (a.sha.Some? && a.sha.value != files[C.SafeRelative(a.path).value].digest)
  {
    hide C.SafeRelative;
    if exists i :: 0 <= i < |r.artifacts| && !Sound(files, r.artifacts[i]) {
      var i :| 0 <= i < |r.artifacts| && !Sound(files, r.artifacts[i]);
      assert r.artifacts[i] == r.artifacts[i];
    }
  }

  /** The catalog, told as the journal has a generation: its record, its entries, and the files on disk. */
  ghost predicate CatalogHas(spec: Spec, d: Disk, content: C.Content, g: nat)
    requires g in d.journal
  {
    var tx := d.journal[g];
    && g in content.generations && content.generations[g].generation == g && content.generations[g].paths == tx.hashes.Keys
    && content.generations[g].transaction == Some(C.Transaction(["generations", TxName(g)], spec.digest(tx), spec.size(tx), true))
    && forall p :: p in tx.hashes ==>
         && p in content.entries && p in d.files
         && content.entries[p].sha == tx.hashes[p] == d.files[p].digest && content.entries[p].size == d.files[p].size
  }

  ghost predicate Kept(content: C.Content, later: C.Content) {
    && (forall p :: p in content.entries ==> p in later.entries && later.entries[p] == content.entries[p])
    && (forall g :: g in content.generations ==> g in later.generations && later.generations[g] == content.generations[g])
  }

  lemma AgreesLater(spec: Spec, d: Disk, content: C.Content, later: C.Content, g: nat)
    requires g in d.journal && RecordAgrees(spec, d, content, g) && Kept(content, later)
    ensures RecordAgrees(spec, d, later, g)
  {
    hide TxRecord;
  }

  lemma RegisteredKept(spec: Spec, d: Disk, content: C.Content, g: nat)
    requires g in d.journal && g in d.results && g !in content.generations && RegisterIn(spec, d, content, g).Ok?
    ensures Kept(content, RegisterIn(spec, d, content, g).value)
  {
    hide TxRecord, C.Registered;
    C.RegistrationExactly(d.files, content, g, d.results[g].artifacts, Some(TxRecord(spec, g, d.journal[g])));
  }

  lemma {:induction false} ReconciledAgrees(spec: Spec, d: Disk, content: C.Content, pending: seq<nat>)
    requires (forall g :: g in pending ==> g in d.journal) && Reconcile(spec, d, content, pending).Reconciled?
    ensures Kept(content, Reconcile(spec, d, content, pending).content)
    ensures forall g :: g in pending ==> RecordAgrees(spec, d, Reconcile(spec, d, content, pending).content, g)
    decreases |pending|
  {
    hide RecordAgrees, RegisterIn, Validates, HashesOf;
    if pending != [] {
      var g := pending[0];
      var after := content;
      if g !in content.generations {
        RegisteredKept(spec, d, content, g);
        after := RegisterIn(spec, d, content, g).value;
      }
      ReconciledAgrees(spec, d, after, pending[1..]);
      AgreesLater(spec, d, after, Reconcile(spec, d, after, pending[1..]).content, g);
      forall h | h in pending ensures RecordAgrees(spec, d, Reconcile(spec, d, content, pending).content, h) {
        assert h == g || h in pending[1..];
      }
    }
  }

  lemma {:induction false} PendingHas(d: Disk, g: nat, h: nat)
    ensures h in PendingFrom(d, g) <==> g <= h <= 9999 && h in d.journal && d.journal[h].status == Committed
    decreases 10000 - g
  {
    if g <= 9999 {
      PendingHas(d, g + 1, h);
    }
  }

  /** Whatever the disk looks like, an interrupted commit is finished only when every committed transaction beyond the
      manifest is of this schema and profile with proper hashes, they follow the manifest without a gap, neither the
      catalog nor the state is ahead of them, and the catalog has each of them as the journal does; then the state is
      marked for recovery and manifest and state name the last of them. */
  lemma RecoveryDemands(spec: Spec, d: Disk)
    requires Recovery(spec, d).Finish?
    ensures var r, last := Recovery(spec, d), d.manifest.last;
      && r.manifest.last > last && r.runtime == Runtime(RecoveryRequired, d.runtime.origin, r.manifest.last) && d.runtime.last <= r.manifest.last
      && r.manifest.arenas == d.manifest.arenas
      && (forall g :: last < g <= 9999 && g in d.journal && d.journal[g].status == Committed ==> g <= r.manifest.last)
      && (forall g :: last < g && g in d.catalog.generations ==> g <= r.manifest.last)
      && forall g :: last < g <= r.manifest.last ==>
           && g in d.journal && d.journal[g].status == Committed && d.journal[g].schema == spec.schema && d.journal[g].profile == spec.profile
           && d.journal[g].hashes != map[] && (forall p :: p in d.journal[g].hashes ==> |d.journal[g].hashes[p]| == 71 && "sha256:" <= d.journal[g].hashes[p])
           && CatalogHas(spec, d, r.manifest.fingerprint, g)
  {
    hide Reconcile, PendingFrom, CheckpointsOf, RecordAgrees, TransactionOk, CatalogHas;
    var last, pending := d.manifest.last, Pending(d);
    ReconciledAgrees(spec, d, d.catalog, pending);
    var r := Recovery(spec, d);
    forall g: nat ensures g in pending <==> last < g <= 9999 && g in d.journal && d.journal[g].status == Committed {
      PendingHas(d, last + 1, g);
    }
    InOrder(pending, last);
    forall g | last < g <= r.manifest.last
      ensures g in d.journal && d.journal[g].status == Committed && d.journal[g].schema == spec.schema && d.journal[g].profile == spec.profile
      ensures d.journal[g].hashes != map[] && forall p :: p in d.journal[g].hashes ==> |d.journal[g].hashes[p]| == 71 && "sha256:" <= d.journal[g].hashes[p]
      ensures CatalogHas(spec, d, r.manifest.fingerprint, g)
    {
      assert g in pending;
      TransactionTells(spec, d.journal[g]);
      RecordTells(spec, d, r.manifest.fingerprint, g);
    }
  }

  lemma InOrder(pending: seq<nat>, last: nat)
    requires Consecutive(pending, last) && pending != []
    ensures forall g :: g in pending <==> last < g <= pending[|pending| - 1]
  {
    forall g | last < g <= pending[|pending| - 1] ensures g in pending {
      assert pending[g - last - 1] == g;
    }
  }

  lemma TransactionTells(spec: Spec, tx: Tx)
    ensures TransactionOk(spec, tx) <==>
      && tx.schema == spec.schema && tx.profile == spec.profile && tx.hashes != map[]
      && forall p :: p in tx.hashes ==> |tx.hashes[p]| == 71 && "sha256:" <= tx.hashes[p]
  {
  }

  lemma RecordTells(spec: Spec, d: Disk, content: C.Content, g: nat)
    requires g in d.journal
    ensures RecordAgrees(spec, d, content, g) <==> CatalogHas(spec, d, content, g)
  {
    hide TxName;
  }

  function CatalogsOf(r: Reconciled): seq<C.Content> {
    match r case Reconciled(catalogs, _) => catalogs case Unreconciled(written, _) => written
  }

  /** The result of a generation is still the one the journal has. */
  ghost predicate Undrifted(d: Disk, g: nat) {
    g in d.journal && g in d.results && Validates(d.files, d.results[g]) && HashesOf(d.files, d.results[g]) == d.journal[g].hashes
  }

  /** Whatever a reconciliation writes, refused or not, it only ever adds pending generations whose result still
      validates with the hashes of the journal. */
  lemma {:induction false} OnlyUndrifted(spec: Spec, d: Disk, content: C.Content, pending: seq<nat>, i: nat, g: nat)
    requires (forall h :: h in pending ==> h in d.journal) && i < |CatalogsOf(Reconcile(spec, d, content, pending))|
    requires g in CatalogsOf(Reconcile(spec, d, content, pending))[i].generations && g !in content.generations
    ensures g in pending && Undrifted(d, g)
    decreases |pending|
  {
    hide RecordAgrees, Validates, HashesOf, C.Registered;
    var h := pending[0];
    if h in content.generations {
      OnlyUndrifted(spec, d, content, pending[1..], i, g);
    } else {
      var registered := RegisterIn(spec, d, content, h).value;
      C.RegistrationExactly(d.files, content, h, d.results[h].artifacts, Some(TxRecord(spec, h, d.journal[h])));
      if g != h {
        OnlyUndrifted(spec, d, registered, pending[1..], i - 1, g);
      }
    }
  }
}
