/** Whole lives of a lineage: generations published, interrupted, rolled back, reconciled and retried. */
module LineageHistory {
  import opened Options
  import C = ArtifactCatalog
  import opened CommitFence

  /** One attempt at a generation: how many of the eighteen writes happened; if not all, whether an exception was
      handled or the process died, and after how many writes the first reconciliation died. */
  datatype Attempt = Attempt(work: Work, writes: nat, handled: bool, reconciled: nat)
  {
    predicate Committed() { writes == FENCE + 1 }
  }

  function GenerationOf(n: Name): Option<nat> {
    match n case Final(_, g) => Some(g) case Temp(_, g) => Some(g) case Marker(g) => Some(g) case MarkerTemp(g) => Some(g) case Elsewhere(_) => None
  }

  /** Nothing of generation g or later is on disk. */
  ghost predicate NoneFrom(store: Store, lineage: string, d: Disk, g: nat)
    requires Faithful(store)
  {
    && (forall n :: n in d.files && GenerationOf(n).Some? ==> GenerationOf(n).value < g)
    && (forall h :: h in d.manifest.commits ==> h < g) && (forall h: nat :: Final(Checkpoint, h) in d.manifest.hashes ==> h < g)
    && C.Consistent(d.catalog) && (forall h :: h in d.catalog.generations ==> h < g)
    && (forall k, h: nat :: store.Path(Final(k, h)) in d.catalog.entries ==> h < g)
    && d.manifest.lineage == lineage
  }

  /** The caller's part: the next generation, its parent and a configuration that is there. */
  ghost predicate Fits(store: Store, lineage: string, d: Disk, g: nat, a: Attempt) {
    && a.work.lineage == lineage && a.work.generation == g == a.work.parent.generation + 1
    && a.writes <= FENCE + 1 && a.reconciled <= RECONCILED
    && a.work.config.name.Elsewhere? && a.work.config.name in d.files && store.digest(d.files[a.work.config.name]) == a.work.config.sha
  }

  /** What an unfinished attempt leaves for reconciliation. */
  ghost function Unfinished(store: Store, d: Disk, a: Attempt): Disk
    requires Faithful(store)
  {
    var left := Publish(store, a.work, d, a.writes);
    if a.handled then RolledBack(a.work.generation, left) else left
  }

  /** The disk the next attempt starts from. */
  ghost function After(store: Store, d: Disk, a: Attempt): Disk
    requires Faithful(store)
  {
    if a.Committed() then Publish(store, a.work, d, FENCE + 1)
    else
      var g, left := a.work.generation, Unfinished(store, d, a);
      match Reconcile(store, a.work.lineage, ReconcileWrites(left, g, a.reconciled), g)
      case Removed(d') => d'
      case _ => left
  }

  function NextGeneration(g: nat, a: Attempt): nat { if a.Committed() then g + 1 else g }

  ghost predicate IsHistory(store: Store, lineage: string, attempts: seq<Attempt>, disks: seq<Disk>, generations: seq<nat>)
    requires Faithful(store)
  {
    && |disks| == |generations| == |attempts| + 1
    && NoneFrom(store, lineage, disks[0], generations[0])
    && forall i :: 0 <= i < |attempts| ==>
         && Fits(store, lineage, disks[i], generations[i], attempts[i])
         && disks[i + 1] == After(store, disks[i], attempts[i]) && generations[i + 1] == NextGeneration(generations[i], attempts[i])
  }

  lemma NoneFromIsReady(store: Store, lineage: string, d: Disk, g: nat, a: Attempt)
    requires Faithful(store) && NoneFrom(store, lineage, d, g) && Fits(store, lineage, d, g, a)
    ensures Ready(store, a.work, d)
  {
    hide C.Consistent;
    forall k: Kind ensures Final(k, g) !in d.files && Temp(k, g) !in d.files && store.Path(Final(k, g)) !in d.catalog.entries {
      assert GenerationOf(Final(k, g)) == Some(g) && GenerationOf(Temp(k, g)) == Some(g);
    }
    assert GenerationOf(Marker(g)) == Some(g) && GenerationOf(MarkerTemp(g)) == Some(g);
    forall h: nat | Marker(h) in d.files ensures h < g {
      assert GenerationOf(Marker(h)) == Some(h);
    }
  }

  // ----- a committed attempt -----

  lemma CommittedNone(store: Store, lineage: string, d0: Disk, g: nat, w: Work)
    requires Faithful(store) && NoneFrom(store, lineage, d0, g) && Ready(store, w, d0) && w.generation == g
    ensures NoneFrom(store, lineage, Publish(store, w, d0, FENCE + 1), g + 1)
  {
    hide Faithful, Ready, Publish, C.Registered, ArtifactsOf, Published, MarkerOf, CheckpointOf, CommitOf, C.Consistent;
    var d := Publish(store, w, d0, FENCE + 1);
    PublishShape(store, w, d0, FENCE + 1);
    CatalogNone(store, w, d0, d);
    forall n | n in d.files && GenerationOf(n).Some? ensures GenerationOf(n).value < g + 1 {
      assert OfGeneration(n, g) <==> GenerationOf(n) == Some(g);
    }
  }

  /** Registration adds this generation, and of paths only its own. */
  lemma CatalogNone(store: Store, w: Work, d0: Disk, d: Disk)
    requires Faithful(store) && OwnEvidence(store, w, d0, d) && C.Consistent(d0.catalog)
    requires forall h :: h in d0.catalog.generations ==> h < w.generation
    requires forall k, h: nat :: store.Path(Final(k, h)) in d0.catalog.entries ==> h < w.generation
    ensures C.Consistent(d.catalog)
    ensures forall h :: h in d.catalog.generations ==> h < w.generation + 1
    ensures forall k, h: nat :: store.Path(Final(k, h)) in d.catalog.entries ==> h < w.generation + 1
  {
    hide C.EnterAll, C.Checked, ArtifactsOf, CheckpointOf, CommitOf;
    var g := w.generation;
    if d.catalog != d0.catalog {
      var files :| C.Registered(files, d0.catalog, g, ArtifactsOf(store, w), None) == C.Ok(d.catalog);
      C.RegistrationKeeps(files, d0.catalog, g, ArtifactsOf(store, w), None);
      RecordBound(store, w, files, d0.catalog);
      forall k, h: nat | store.Path(Final(k, h)) in d.catalog.entries ensures h < g + 1 {
        var p := store.Path(Final(k, h));
        assert C.Referenced(d.catalog.generations, p);
        var owner :| owner in d.catalog.generations && p in d.catalog.generations[owner].paths;
        if owner == g {
          var k' :| store.Path(Final(k', g)) == p;
        } else {
          assert C.Referenced(d0.catalog.generations, p);
        }
      }
    }
  }

  // ----- an unfinished one -----

  /** Reconciliation, interrupted or not, leads back to the start, but for the configuration reference. */
  lemma UnfinishedReturns(store: Store, d0: Disk, a: Attempt)
    requires Faithful(store) && Ready(store, a.work, d0) && a.writes <= FENCE && a.reconciled <= RECONCILED
    ensures After(store, d0, a) == d0.(manifest := d0.manifest.(config := After(store, d0, a).manifest.config))
  {
    hide Faithful, Ready, Publish, OwnEvidence, OwnFiles, SameElsewhere, Reconcile, ReconcileWrites;
    var left := Publish(store, a.work, d0, a.writes);
    PublishShape(store, a.work, d0, a.writes);
    RollbackRemovable(store, a.work, d0, left);
    InterruptedReconciliation(store, a.work, d0, Unfinished(store, d0, a), a.reconciled);
    RemovableReconciles(store, a.work, d0, Unfinished(store, d0, a));
  }

  lemma SameWithConfig(store: Store, lineage: string, d0: Disk, d: Disk, g: nat)
    requires Faithful(store) && d == d0.(manifest := d0.manifest.(config := d.manifest.config))
    ensures NoneFrom(store, lineage, d0, g) ==> NoneFrom(store, lineage, d, g)
    ensures forall h :: Validates(store, lineage, d0, h) ==> Validates(store, lineage, d, h)
  {
    hide Faithful, Validates, C.Consistent;
    forall h | Validates(store, lineage, d0, h) ensures Validates(store, lineage, d, h) {
      ValidatesMonotone(store, lineage, d0, d, h);
    }
  }

  // ----- every history -----

  lemma NothingValidates(store: Store, lineage: string, d: Disk, g: nat, h: nat)
    requires Faithful(store) && NoneFrom(store, lineage, d, g) && h >= g
    ensures !Validates(store, lineage, d, h)
  {
    hide Faithful, Validates, C.Consistent;
    assert GenerationOf(Marker(h)) == Some(h);
    NoMarkerNoCommit(store, lineage, d, h);
  }

  lemma AttemptKeeps(store: Store, lineage: string, d: Disk, g: nat, first: nat, a: Attempt)
    requires Faithful(store) && NoneFrom(store, lineage, d, g) && Fits(store, lineage, d, g, a)
    requires forall h: nat :: first <= h < g ==> Validates(store, lineage, d, h)
    ensures NoneFrom(store, lineage, After(store, d, a), NextGeneration(g, a))
    ensures forall h: nat :: first <= h < NextGeneration(g, a) ==> Validates(store, lineage, After(store, d, a), h)
  {
    hide Faithful, NoneFrom, Validates, Ready, Publish, Reconcile, ReconcileWrites, Unfinished;
    NoneFromIsReady(store, lineage, d, g, a);
    if a.Committed() {
      CommittedNone(store, lineage, d, g, a.work);
      CommitFence.CommitFence(store, a.work, d, FENCE + 1);
      forall h: nat | first <= h < g ensures Validates(store, lineage, After(store, d, a), h) {
        EarlierStillValidate(store, a.work, d, FENCE + 1, h);
      }
    } else {
      UnfinishedReturns(store, d, a);
      SameWithConfig(store, lineage, d, After(store, d, a), g);
    }
  }

  /** Over every life of a lineage the generations that validate between attempts are exactly those committed. */
  lemma {:induction false} CommittedValidate(store: Store, lineage: string, attempts: seq<Attempt>, disks: seq<Disk>, generations: seq<nat>, i: nat)
    requires Faithful(store) && IsHistory(store, lineage, attempts, disks, generations) && i < |disks|
    ensures NoneFrom(store, lineage, disks[i], generations[i])
    ensures forall h: nat :: h >= generations[0] ==> (Validates(store, lineage, disks[i], h) <==> h < generations[i])
  {
    hide Faithful, NoneFrom, Fits, Validates, After;
    if i > 0 {
      CommittedValidate(store, lineage, attempts, disks, generations, i - 1);
      assert Fits(store, lineage, disks[i - 1], generations[i - 1], attempts[i - 1]) && disks[i - 1 + 1] == After(store, disks[i - 1], attempts[i - 1])
             && generations[i - 1 + 1] == NextGeneration(generations[i - 1], attempts[i - 1]);
      AttemptKeeps(store, lineage, disks[i - 1], generations[i - 1], generations[0], attempts[i - 1]);
    }
    forall h: nat | h >= generations[i] ensures !Validates(store, lineage, disks[i], h) {
      NothingValidates(store, lineage, disks[i], generations[i], h);
    }
  }

  /** And at every single write of every attempt: the committed generations, plus the one under way exactly once its
      marker has been renamed. */
  lemma EveryWrite(store: Store, lineage: string, attempts: seq<Attempt>, disks: seq<Disk>, generations: seq<nat>, i: nat, k: nat, h: nat)
    requires Faithful(store) && IsHistory(store, lineage, attempts, disks, generations) && i < |attempts| && k <= FENCE + 1
    requires h >= generations[0]
    ensures Validates(store, lineage, Publish(store, attempts[i].work, disks[i], k), h) <==> h < generations[i] || (h == generations[i] && k == FENCE + 1)
  {
    hide Faithful, NoneFrom, Validates, After, Ready, Publish, OwnFiles, OwnEvidence;
    CommittedValidate(store, lineage, attempts, disks, generations, i);
    assert Fits(store, lineage, disks[i], generations[i], attempts[i]);
    NoneFromIsReady(store, lineage, disks[i], generations[i], attempts[i]);
    if h < generations[i] {
      EarlierStillValidate(store, attempts[i].work, disks[i], k, h);
    } else if h == generations[i] {
      CommitFence.CommitFence(store, attempts[i].work, disks[i], k);
    } else {
      PublishShape(store, attempts[i].work, disks[i], k);
      LaterMarker(store, lineage, disks[i], generations[i], h);
      assert !OfGeneration(Marker(h), generations[i]);
      NoMarkerNoCommit(store, lineage, Publish(store, attempts[i].work, disks[i], k), h);
    }
  }

  lemma LaterMarker(store: Store, lineage: string, d: Disk, g: nat, h: nat)
    requires Faithful(store) && NoneFrom(store, lineage, d, g) && h >= g
    ensures Marker(h) !in d.files
  {
    assert GenerationOf(Marker(h)) == Some(h);
  }
}
