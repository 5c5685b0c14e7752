/** One training generation as a transaction over the lineage's files, with its rollback handler, and the removal of
    what a dead process left behind. */
module TrainingTransaction {
  import opened Options
  import C = ArtifactCatalog
  import opened CommitFence

  datatype Outcome = Committed | RolledBack | AlreadyPublished

  // ----- the disk between the writes -----

  /** Temporary artifacts from the i-th on wait for their renames. */
  predicate Waiting(w: Work, files: map<Name, Doc>, from: nat) {
    forall i :: from <= i < |ARTIFACTS| ==> Temp(ARTIFACTS[i], w.generation) in files && files[Temp(ARTIFACTS[i], w.generation)] == Content(w, ARTIFACTS[i])
  }

  predicate MarkerWaiting(store: Store, w: Work, files: map<Name, Doc>) {
    MarkerTemp(w.generation) in files && files[MarkerTemp(w.generation)] == MarkerOf(store, w)
  }

  lemma {:induction false} Written(store: Store, w: Work, d0: Disk, k: nat)
    requires Faithful(store) && k <= 6
    ensures forall i :: 0 <= i < k ==> Temp(ARTIFACTS[i], w.generation) in Publish(store, w, d0, k).files && Publish(store, w, d0, k).files[Temp(ARTIFACTS[i], w.generation)] == Content(w, ARTIFACTS[i])
  {
    hide Faithful, MarkerOf, C.Registered, FilesOf;
    if k > 0 {
      Written(store, w, d0, k - 1);
    }
  }

  lemma TemporariesThere(store: Store, w: Work, d0: Disk)
    requires Faithful(store)
    ensures Waiting(w, Publish(store, w, d0, 7).files, 0) && MarkerWaiting(store, w, Publish(store, w, d0, 7).files)
  {
    hide Faithful, MarkerOf, C.Registered, FilesOf;
    Written(store, w, d0, 6);
    assert Publish(store, w, d0, 7) == PublishStep(store, w, Publish(store, w, d0, 6), 6);
  }

  /** The renames leave the later temporaries alone. */
  lemma KindsDiffer(i: nat)
    requires i < |ARTIFACTS|
    ensures forall j :: i < j < |ARTIFACTS| ==> ARTIFACTS[j] != ARTIFACTS[i]
  {
    assert ARTIFACTS[0] == Fresh && ARTIFACTS[1] == Rolling && ARTIFACTS[2] == Checkpoint && ARTIFACTS[3] == Metadata && ARTIFACTS[4] == Training && ARTIFACTS[5] == Summary;
  }

  lemma {:induction false} MarkerWaits(store: Store, w: Work, d0: Disk, k: nat)
    requires Faithful(store) && 7 <= k <= FENCE
    ensures MarkerWaiting(store, w, Publish(store, w, d0, k).files)
  {
    hide Faithful, MarkerOf, C.Registered, FilesOf, Publish;
    if k == 7 {
      TemporariesThere(store, w, d0);
    } else {
      MarkerWaits(store, w, d0, k - 1);
      Next(store, w, d0, k - 1);
    }
  }

  lemma Next(store: Store, w: Work, d0: Disk, k: nat)
    requires Faithful(store)
    ensures Publish(store, w, d0, k + 1) == PublishStep(store, w, Publish(store, w, d0, k), k)
  {
    hide Faithful, PublishStep;
  }

  /** What the graph publication demands before its first write. */
  predicate Permitted(store: Store, w: Work, d: Disk) {
    && w.generation == w.parent.generation + 1 && d.manifest.lineage == w.lineage
    && Present(store, d, CheckpointOf(store, w).name, CheckpointOf(store, w).sha) && Present(store, d, FreshOf(store, w).name, FreshOf(store, w).sha)
    && Present(store, d, w.config.name, w.config.sha)
  }

  /** An immutable file that is already there with other contents, or a foreign parent or lineage. */
  predicate Obstructed(store: Store, w: Work, d: Disk) {
    || (Final(Provenance, w.generation) in d.files && d.files[Final(Provenance, w.generation)] != ProvenanceOf(store, w))
    || (Final(Node, w.generation) in d.files && d.files[Final(Node, w.generation)] != NodeOf(store, w))
    || w.generation != w.parent.generation + 1 || d.manifest.lineage != w.lineage
  }

  /** The first thirteen writes leave the graph files and the manifest alone. */
  lemma {:induction false} GraphUntouched(store: Store, w: Work, d0: Disk, k: nat)
    requires Faithful(store) && k <= 13
    ensures var d := Publish(store, w, d0, k);
      && d.manifest == d0.manifest
      && forall kind :: kind == Provenance || kind == Node ==>
           && (Final(kind, w.generation) in d.files <==> Final(kind, w.generation) in d0.files)
           && (Final(kind, w.generation) in d.files ==> d.files[Final(kind, w.generation)] == d0.files[Final(kind, w.generation)])
  {
    hide Faithful, MarkerOf, C.Registered, FilesOf;
    if k > 0 {
      GraphUntouched(store, w, d0, k - 1);
      if 7 < k {
        ArtifactKind(k - 8);
      }
    }
  }

  /** Nor do they touch anything that is not of the generation. */
  lemma {:induction false} OthersUntouched(store: Store, w: Work, d0: Disk, k: nat, n: Name)
    requires Faithful(store) && k <= 13 && !OfGeneration(n, w.generation)
    ensures var d := Publish(store, w, d0, k);
      (n in d.files <==> n in d0.files) && (n in d.files ==> d.files[n] == d0.files[n])
  {
    hide Faithful, MarkerOf, C.Registered, FilesOf;
    if k > 0 {
      OthersUntouched(store, w, d0, k - 1, n);
    }
  }

  /** What must be true of a generation's surroundings for it to be committed. */
  lemma PermittedTells(store: Store, w: Work, d0: Disk)
    requires Faithful(store) && Permitted(store, w, Publish(store, w, d0, 13))
    ensures w.generation == w.parent.generation + 1 && d0.manifest.lineage == w.lineage
    ensures !OfGeneration(w.config.name, w.generation) ==> w.config.name in d0.files && store.digest(d0.files[w.config.name]) == w.config.sha
  {
    hide Faithful, Publish, CheckpointOf, FreshOf;
    GraphUntouched(store, w, d0, 13);
    if !OfGeneration(w.config.name, w.generation) {
      OthersUntouched(store, w, d0, 13, w.config.name);
    }
  }

  lemma ArtifactKind(i: nat)
    requires i < |ARTIFACTS|
    ensures ARTIFACTS[i] != Provenance && ARTIFACTS[i] != Node
  {
    assert ARTIFACTS[0] == Fresh && ARTIFACTS[1] == Rolling && ARTIFACTS[2] == Checkpoint && ARTIFACTS[3] == Metadata && ARTIFACTS[4] == Training && ARTIFACTS[5] == Summary;
  }

  /** Nothing stops the publication of a generation whose turn it is, the catalog included. */
  ghost predicate Unhindered(store: Store, w: Work, d0: Disk)
    requires Faithful(store)
  {
    && Permitted(store, w, Publish(store, w, d0, 13))
    && Final(Provenance, w.generation) !in d0.files && Final(Node, w.generation) !in d0.files
    && var d := Publish(store, w, d0, 16); C.Registered(FilesOf(store, d.files), d.catalog, w.generation, ArtifactsOf(store, w), None).Ok?
  }

  lemma ReadyIsUnhindered(store: Store, w: Work, d0: Disk)
    requires Faithful(store) && Ready(store, w, d0)
    ensures Unhindered(store, w, d0)
  {
    hide Faithful, Ready, Publish, C.Registered, FilesOf, ArtifactsOf, Has, OwnFiles, OwnEvidence, SameElsewhere, Permitted;
    var d := Publish(store, w, d0, 16);
    RenamedSoFar(store, w, d0, 16);
    AllPublished(store, w, d, 16);
    PublishShape(store, w, d0, 16);
    RegistrationGoesThrough(store, w, d0, d);
    ReadyIsPermitted(store, w, d0);
  }

  lemma ReadyIsPermitted(store: Store, w: Work, d0: Disk)
    requires Faithful(store) && Ready(store, w, d0)
    ensures Permitted(store, w, Publish(store, w, d0, 13))
    ensures Final(Provenance, w.generation) !in d0.files && Final(Node, w.generation) !in d0.files
  {
    hide Faithful, Publish, C.Registered, FilesOf, ArtifactsOf, OwnFiles, OwnEvidence, C.Consistent;
    var d := Publish(store, w, d0, 13);
    RenamedSoFar(store, w, d0, 13);
    assert CATALOGED[0] == Fresh && CATALOGED[2] == Checkpoint;
    assert Has(store, w, d, Fresh) && Has(store, w, d, Checkpoint);
    PublishShape(store, w, d0, 13);
    assert !OfGeneration(w.config.name, w.generation);
  }

  /** Final names of a generation: nothing is published over them. */
  predicate Occupied(g: nat, files: map<Name, Doc>) {
    Marker(g) in files || exists k :: k in ARTIFACTS && Final(k, g) in files
  }

  /** What the rollback handler unlinks, in its order. */
  function RollbackList(g: nat): seq<Name> {
    [Temp(Fresh, g), Temp(Rolling, g), Temp(Checkpoint, g), Temp(Metadata, g), Temp(Training, g), Temp(Summary, g), MarkerTemp(g),
     Final(Fresh, g), Final(Rolling, g), Final(Checkpoint, g), Final(Metadata, g), Final(Training, g), Final(Summary, g), Marker(g)]
  }

  lemma RollbackListIs(g: nat)
    ensures NamesOf(RollbackList(g), |RollbackList(g)|) == RollbackNames(g)
  {
    hide NamesOf;
    forall n: Name ensures n in NamesOf(RollbackList(g), |RollbackList(g)|) <==> n in RollbackNames(g) {
      AllNames(RollbackList(g), n);
      if n.Temp? || n.Final? {
        RollbackKind(g, n.kind);
      }
      var list := RollbackList(g);
      assert list[6] == MarkerTemp(g) && list[13] == Marker(g);
    }
  }

  lemma RollbackKind(g: nat, k: Kind)
    ensures k in ARTIFACTS <==> k != Provenance && k != Node
    ensures (Final(k, g) in RollbackList(g) <==> k in ARTIFACTS) && (Temp(k, g) in RollbackList(g) <==> k in ARTIFACTS)
  {
    var list := RollbackList(g);
    match k {
      case Fresh => assert ARTIFACTS[0] == k && list[0] == Temp(k, g) && list[7] == Final(k, g);
      case Rolling => assert ARTIFACTS[1] == k && list[1] == Temp(k, g) && list[8] == Final(k, g);
      case Checkpoint => assert ARTIFACTS[2] == k && list[2] == Temp(k, g) && list[9] == Final(k, g);
      case Metadata => assert ARTIFACTS[3] == k && list[3] == Temp(k, g) && list[10] == Final(k, g);
      case Training => assert ARTIFACTS[4] == k && list[4] == Temp(k, g) && list[11] == Final(k, g);
      case Summary => assert ARTIFACTS[5] == k && list[5] == Temp(k, g) && list[12] == Final(k, g);
      case Provenance =>
      case Node =>
    }
  }

  // ----- the refusals of a reconciliation, as they are computed -----

  predicate Later(d: Disk, g: nat) {
    || (exists n :: n in d.files && n.Marker? && n.generation > g)
    || (exists n :: n in d.manifest.hashes && n.Final? && n.kind == Checkpoint && n.generation > g)
    || (exists h :: h in d.manifest.commits && h > g)
  }

  lemma LaterIs(d: Disk, g: nat)
    ensures Later(d, g) <==> LaterEvidence(d, g)
  {
    if Later(d, g) {
      if n :| n in d.files && n.Marker? && n.generation > g {
        assert Marker(n.generation) in d.files;
      } else if n :| n in d.manifest.hashes && n.Final? && n.kind == Checkpoint && n.generation > g {
        assert Final(Checkpoint, n.generation) in d.manifest.hashes;
      }
    }
  }

  lemma EveryKind(k: Kind)
    ensures k in CATALOGED
  {
    assert CATALOGED[0] == Fresh && CATALOGED[1] == Rolling && CATALOGED[2] == Checkpoint && CATALOGED[3] == Metadata
           && CATALOGED[4] == Training && CATALOGED[5] == Summary && CATALOGED[6] == Provenance && CATALOGED[7] == Node;
  }

  predicate Bound(store: Store, c: C.Content, g: nat)
    requires Faithful(store)
  {
    if g in c.generations then c.generations[g].paths <= CatalogedPaths(store, g)
    else CatalogedPaths(store, g) !! c.entries.Keys
  }

  lemma BoundIs(store: Store, d: Disk, g: nat)
    requires Faithful(store)
    ensures Bound(store, d.catalog, g) <==> CatalogBound(store, d, g)
  {
    forall k: Kind ensures store.Path(Final(k, g)) in CatalogedPaths(store, g) {
      EveryKind(k);
    }
    if g !in d.catalog.generations && CatalogBound(store, d, g) {
      assert CatalogedPaths(store, g) !! d.catalog.entries.Keys;
    }
  }

  class Lineage {
    const store: Store
    var files: map<Name, Doc>
    var manifest: Manifest
    var catalog: C.Content
    /** Writes of the transaction until something raises. */
    var untilError: nat

    function Disk(): CommitFence.Disk
      reads this
    {
      CommitFence.Disk(files, manifest, catalog)
    }

    // ----- the single writes -----

    method Write(n: Name, doc: Doc) returns (ok: bool)
      modifies this`files, this`untilError
      ensures ok <==> old(untilError) > 0
      ensures untilError == if ok then old(untilError) - 1 else 0
      ensures Disk() == if ok then old(Disk()).(files := old(files)[n := doc]) else old(Disk())
    {
      ok := untilError > 0;
      if ok {
        files := files[n := doc];
        untilError := untilError - 1;
      }
    }

    /** An immutable file: written when it is not there, left alone when it is the same, refused when it is another. */
    method WriteImmutable(n: Name, doc: Doc) returns (ok: bool)
      modifies this`files, this`untilError
      ensures ok <==> if n in old(files) then old(files)[n] == doc else old(untilError) > 0
      ensures ok ==> Disk() == old(Disk()).(files := old(files)[n := doc])
      ensures !ok ==> Disk() == old(Disk())
      ensures n !in old(files) ==> untilError == if ok then old(untilError) - 1 else 0
    {
      if n in files {
        assert files[n] == doc ==> files[n := doc] == files;
        return files[n] == doc;
      }
      ok := Write(n, doc);
    }

    /** Atomic replacement of the target by a file that was written before. */
    method Rename(source: Name, target: Name) returns (ok: bool)
      requires source in files && source != target
      modifies this`files, this`untilError
      ensures ok <==> old(untilError) > 0
      ensures untilError == if ok then old(untilError) - 1 else 0
      ensures Disk() == if ok then old(Disk()).(files := (old(files) - {source})[target := old(files)[source]]) else old(Disk())
    {
      ok := untilError > 0;
      if ok {
        var doc := files[source];
        files := (files - {source})[target := doc];
        untilError := untilError - 1;
      }
    }

    // ----- the transaction -----

    /** The six temporary files and the temporary marker. */
    method WriteTemporaries(w: Work) returns (done: nat)
      requires Faithful(store)
      modifies this`files, this`untilError
      ensures done <= 7 && Disk() == Publish(store, w, old(Disk()), done)
      ensures done == (if old(untilError) < 7 then old(untilError) else 7) && untilError == old(untilError) - done
    {
      hide Faithful;
      ghost var d0: CommitFence.Disk := Disk();
      done := 0;
      while done < 6
        invariant done <= 6 && Disk() == Publish(store, w, d0, done) && done <= old(untilError) && untilError == old(untilError) - done
      {
        var ok := Write(Temp(ARTIFACTS[done], w.generation), Content(w, ARTIFACTS[done]));
        if !ok {
          return;
        }
        done := done + 1;
      }
      var ok := Write(MarkerTemp(w.generation), MarkerOf(store, w));
      if ok {
        done := 7;
      }
    }

    /** The renames to the final names, all but the marker's. */
    method RenameArtifacts(w: Work, ghost d0: CommitFence.Disk) returns (done: nat)
      requires Faithful(store) && Disk() == Publish(store, w, d0, 7)
      modifies this`files, this`untilError
      ensures 7 <= done <= 13 && Disk() == Publish(store, w, d0, done)
      ensures done == (if old(untilError) < 6 then 7 + old(untilError) else 13) && untilError == old(untilError) - (done - 7)
    {
      hide Faithful;
      TemporariesThere(store, w, d0);
      done := 7;
      while done < 13
        invariant 7 <= done <= 13 && Disk() == Publish(store, w, d0, done) && done - 7 <= old(untilError) && untilError == old(untilError) - (done - 7)
        invariant Waiting(w, files, done - 7)
      {
        var kind := ARTIFACTS[done - 7];
        KindsDiffer(done - 7);
        var ok := Rename(Temp(kind, w.generation), Final(kind, w.generation));
        if !ok {
          return;
        }
        done := done + 1;
      }
    }

    /** The graph evidence prepared before the fence: provenance, node, manifest, catalog. */
    method PrepareCommit(w: Work, ghost d0: CommitFence.Disk) returns (done: nat)
      requires Faithful(store) && Disk() == Publish(store, w, d0, 13)
      modifies this
      ensures 13 <= done <= 17 && Disk() == Publish(store, w, d0, done)
      ensures Unhindered(store, w, d0) ==>
                done == (if old(untilError) < 4 then 13 + old(untilError) else 17) && untilError == old(untilError) - (done - 13)
      ensures Obstructed(store, w, d0) ==> done <= 14
      ensures done > 13 ==> Permitted(store, w, Publish(store, w, d0, 13))
    {
      hide Faithful, C.Registered, FilesOf, Publish, ArtifactsOf, ProvenanceOf, NodeOf, Present, CheckpointOf, FreshOf;
      GraphUntouched(store, w, d0, 13);
      Next(store, w, d0, 13);
      Next(store, w, d0, 14);
      Next(store, w, d0, 15);
      Next(store, w, d0, 16);
      if !Permitted(store, w, Disk()) {
        return 13;
      }
      var ok := WriteImmutable(Final(Provenance, w.generation), ProvenanceOf(store, w));
      if !ok {
        return 13;
      }
      ok := WriteImmutable(Final(Node, w.generation), NodeOf(store, w));
      if !ok {
        return 14;
      }
      done := UpdateManifestAndCatalog(w, d0);
    }

    method UpdateManifestAndCatalog(w: Work, ghost d0: CommitFence.Disk) returns (done: nat)
      requires Faithful(store) && Disk() == Publish(store, w, d0, 15)
      modifies this
      ensures 15 <= done <= 17 && Disk() == Publish(store, w, d0, done)
      ensures Unhindered(store, w, d0) ==>
                done == (if old(untilError) < 2 then 15 + old(untilError) else 17) && untilError == old(untilError) - (done - 15)
    {
      hide Faithful, C.Registered, FilesOf, Publish, ArtifactsOf, ProvenanceOf, NodeOf, Permitted;
      Next(store, w, d0, 15);
      Next(store, w, d0, 16);
      if untilError == 0 {
        return 15;
      }
      manifest := manifest.(hashes := manifest.hashes[Final(Checkpoint, w.generation) := CheckpointOf(store, w).sha],
                            commits := manifest.commits[w.generation := CommitOf(store, w)], config := Some(w.config));
      untilError := untilError - 1;
      if untilError == 0 {
        return 16;
      }
      var loaded := new C.ArtifactCatalog.Load(catalog);
      var failure := loaded.RegisterGeneration(FilesOf(store, files), w.generation, ArtifactsOf(store, w), None);
      if failure != None {
        return 16;
      }
      catalog := C.Content(loaded.entries, loaded.generations);
      untilError := untilError - 1;
      return 17;
    }

    /** After an exception before the fence: temporary and final files are unlinked one by one. */
    method Unlink(names: seq<Name>)
      modifies this`files
      ensures Disk() == old(Disk()).(files := old(files) - NamesOf(names, |names|))
    {
      assert files - NamesOf(names, 0) == files;
      for i := 0 to |names|
        invariant files == old(files) - NamesOf(names, i) && Disk() == old(Disk()).(files := files)
      {
        files := files - {names[i]};
        assert NamesOf(names, i + 1) == NamesOf(names, i) + {names[i]};
      }
    }

    /** Runs one generation, on whatever disk it finds. It commits exactly when all eighteen writes happen; an exception
        before the last one gives the trainer its state back and removes the generation's temporary and final files.
        When it is this generation's turn only an injected exception stops it; what an earlier attempt left of the graph,
        a foreign parent or a foreign lineage stops it at the graph. */
    method RunIteration<State>(w: Work, snapshot: State, trained: State) returns (outcome: Outcome, state: State, ghost writes: nat)
      requires Faithful(store)
      modifies this
      ensures state == if outcome == Committed then trained else snapshot
      ensures Occupied(w.generation, old(files)) ==> outcome == AlreadyPublished && Disk() == old(Disk())
      ensures !Occupied(w.generation, old(files)) ==>
                && writes <= FENCE + 1 && outcome == (if writes > FENCE then Committed else Outcome.RolledBack)
                && Disk() == if writes > FENCE then Publish(store, w, old(Disk()), FENCE + 1)
                             else CommitFence.RolledBack(w.generation, Publish(store, w, old(Disk()), writes))
      ensures !Occupied(w.generation, old(files)) && Ready(store, w, old(Disk())) ==>
                writes == if old(untilError) > FENCE then FENCE + 1 else old(untilError)
      ensures !Occupied(w.generation, old(files)) && Obstructed(store, w, old(Disk())) ==> writes <= 14
      ensures outcome == AlreadyPublished <==>
                Marker(w.generation) in old(files) || exists k :: k != Provenance && k != Node && Final(k, w.generation) in old(files)
      ensures outcome == Committed ==>
                && w.generation == w.parent.generation + 1 && old(manifest).lineage == w.lineage
                && (!OfGeneration(w.config.name, w.generation) ==>
                      w.config.name in old(files) && store.digest(old(files)[w.config.name]) == w.config.sha)
    {
      hide Faithful, Ready, C.Registered, FilesOf, Publish, PublishStep, RollbackList, NamesOf, MarkerOf, RollbackNames, Obstructed, Unhindered, Permitted, OfGeneration;
      writes := 0;
      ArtifactsAre();
      if Occupied(w.generation, files) {
        return AlreadyPublished, snapshot, 0;
      }
      ghost var d0: CommitFence.Disk := Disk();
      if Ready(store, w, d0) {
        ReadyIsUnhindered(store, w, d0);
      }
      var done := WriteTemporaries(w);
      if done == 7 {
        done := RenameArtifacts(w, d0);
      }
      if done == 13 {
        done := PrepareCommit(w, d0);
      }
      if done == FENCE {
        var ok := PutMarker(w, d0);
        if ok {
          PermittedTells(store, w, d0);
          return Committed, trained, FENCE + 1;
        }
      }
      Unlink(RollbackList(w.generation));
      RollbackListIs(w.generation);
      return Outcome.RolledBack, snapshot, done;
    }

    /** The fence: the waiting marker gets its final name. */
    method PutMarker(w: Work, ghost d0: CommitFence.Disk) returns (ok: bool)
      requires Faithful(store) && Disk() == Publish(store, w, d0, FENCE)
      modifies this`files, this`untilError
      ensures ok <==> old(untilError) > 0
      ensures Disk() == Publish(store, w, d0, if ok then FENCE + 1 else FENCE)
    {
      hide Faithful, C.Registered, FilesOf, Publish, MarkerOf;
      MarkerWaits(store, w, d0, FENCE);
      Next(store, w, d0, FENCE);
      ok := Rename(MarkerTemp(w.generation), Marker(w.generation));
    }

    /** Removes an unfinished generation, or leaves a finished one alone, or refuses; reports whether anything changed. */
    method ReconcileUncommitted(lineage: string, g: nat) returns (refused: bool, changed: bool)
      requires Faithful(store)
      modifies this
      ensures match Reconcile(store, lineage, old(Disk()), g)
        case Removed(d) => Disk() == d
        case Kept => Disk() == old(Disk())
        case Refused => Disk() == old(Disk())
      ensures refused <==> Reconcile(store, lineage, old(Disk()), g) == Refused
      ensures changed <==> Disk() != old(Disk())
    {
      hide Faithful, MayReconcile, C.Discarded, Leftovers, NamesOf, ReconcileWrites;
      ghost var d: CommitFence.Disk := Disk();
      LeftoverCount(g);
      ReconcileShape(d, g, RECONCILED);
      if Marker(g) in files {
        return false, false;
      }
      var may := CheckReconcile(lineage, g);
      if !may {
        return true, false;
      }
      var catalogBefore, manifestBefore, filesBefore := catalog, manifest, files;
      var loaded := new C.ArtifactCatalog.Load(catalog);
      loaded.DiscardGeneration(g);
      catalog := C.Content(loaded.entries, loaded.generations);
      manifest := CleanManifest(manifest, g);
      Unlink(Leftovers(g));
      refused, changed := false, catalog != catalogBefore || manifest != manifestBefore || files != filesBefore;
    }

    /** The refusals: another owner, later evidence, foreign graph files, a foreign marker, unbound catalog entries. */
    method CheckReconcile(lineage: string, g: nat) returns (may: bool)
      requires Faithful(store)
      ensures may <==> MayReconcile(store, lineage, Disk(), g)
    {
      hide Faithful, Later, LaterEvidence, Bound, CatalogBound, OwnedBy;
      LaterIs(Disk(), g);
      BoundIs(store, Disk(), g);
      may := manifest.lineage == lineage && !Later(Disk(), g)
             && OwnedBy(Disk(), Final(Provenance, g), lineage, g) && OwnedBy(Disk(), Final(Node, g), lineage, g)
             && (g in manifest.commits ==> manifest.commits[g].name == Marker(g))
             && Bound(store, catalog, g);
    }
  }
}
