/** Publication of one training generation up to its completion marker, the validation of a marker, and the
    reconciliation of a generation that never got one. */
module CommitFence {
  import opened Options
  import C = ArtifactCatalog

  // ----- names, documents, disks -----

  datatype Kind = Fresh | Rolling | Checkpoint | Metadata | Training | Summary | Provenance | Node

  datatype Name = Final(kind: Kind, generation: nat) | Marker(generation: nat) | Temp(kind: Kind, generation: nat) | MarkerTemp(generation: nat) | Elsewhere(id: nat)

  const ARTIFACTS: seq<Kind> := [Fresh, Rolling, Checkpoint, Metadata, Training, Summary]

  datatype Ref = Ref(name: Name, sha: string)

  datatype CheckpointRef = CheckpointRef(lineage: string, generation: nat, name: Name, sha: string)

  datatype Doc =
    | Blob(content: string)
    | MarkerDoc(generation: nat, lineage: string, hashes: map<Kind, string>)
    | ProvenanceDoc(checkpoint: CheckpointRef, parent: CheckpointRef, freshReplay: Ref, config: Ref, commit: Ref, reloadVerified: bool)
    | NodeDoc(checkpoint: CheckpointRef, parent: CheckpointRef, freshReplay: Ref, config: Ref, provenance: Ref)

  datatype Manifest = Manifest(lineage: string, hashes: map<Name, string>, commits: map<nat, Ref>, config: Option<Ref>)

  datatype Disk = Disk(files: map<Name, Doc>, manifest: Manifest, catalog: C.Content)

  /** How names are spelled and contents are hashed. */
  datatype Store = Store(raw: Name -> string, digest: Doc -> C.Digest, size: Doc -> nat)
  {
    function Path(n: Name): C.Path
      requires C.SafeRelative(raw(n)).Some?
    {
      C.SafeRelative(raw(n)).value
    }
  }

  /** Different names are different paths; hashes may collide. */
  ghost predicate Faithful(store: Store) {
    && (forall n :: C.SafeRelative(store.raw(n)).Some?)
    && (forall n, n' :: store.Path(n) == store.Path(n') ==> n == n')
  }

  // ----- publishing a generation -----

  /** What a training run publishes: six contents, its parent checkpoint and its configuration. */
  datatype Work = Work(lineage: string, generation: nat, parent: CheckpointRef, config: Ref, contents: Kind -> string)

  function Content(w: Work, k: Kind): Doc { Blob(w.contents(k)) }

  function CheckpointOf(store: Store, w: Work): CheckpointRef {
    CheckpointRef(w.lineage, w.generation, Final(Checkpoint, w.generation), store.digest(Content(w, Checkpoint)))
  }

  function FreshOf(store: Store, w: Work): Ref { Ref(Final(Fresh, w.generation), store.digest(Content(w, Fresh))) }

  function MarkerOf(store: Store, w: Work): Doc {
    MarkerDoc(w.generation, w.lineage, map k | k in ARTIFACTS :: store.digest(Content(w, k)))
  }

  function CommitOf(store: Store, w: Work): Ref { Ref(Marker(w.generation), store.digest(MarkerOf(store, w))) }

  function ProvenanceOf(store: Store, w: Work): Doc {
    ProvenanceDoc(CheckpointOf(store, w), w.parent, FreshOf(store, w), w.config, CommitOf(store, w), true)
  }

  function NodeOf(store: Store, w: Work): Doc {
    NodeDoc(CheckpointOf(store, w), w.parent, FreshOf(store, w), w.config, Ref(Final(Provenance, w.generation), store.digest(ProvenanceOf(store, w))))
  }

  /** The document published under a final name. */
  function Published(store: Store, w: Work, k: Kind): Doc {
    match k case Provenance => ProvenanceOf(store, w) case Node => NodeOf(store, w) case _ => Content(w, k)
  }

  const CATALOGED: seq<Kind> := [Fresh, Rolling, Checkpoint, Metadata, Training, Summary, Provenance, Node]

  function ArtifactOf(store: Store, w: Work, k: Kind): C.Artifact {
    C.Artifact(store.raw(Final(k, w.generation)), Some(store.digest(Published(store, w, k))), Some(store.size(Published(store, w, k))), map[])
  }

  function ArtifactsOf(store: Store, w: Work): seq<C.Artifact> {
    seq(|CATALOGED|, i requires 0 <= i < |CATALOGED| => ArtifactOf(store, w, CATALOGED[i]))
  }

  /** The published files as the catalog sees them. */
  function FilesOf(store: Store, files: map<Name, Doc>): map<C.Path, C.File>
    requires Faithful(store)
  {
    map n | n in files :: store.Path(n) := C.File(store.size(files[n]), store.digest(files[n]))
  }

  const FENCE := 17

  /** One write of the publication: seven temporary files, six renames, provenance, node, manifest, catalog, and
      the rename of the completion marker. */
  function PublishStep(store: Store, w: Work, d: Disk, i: nat): Disk
    requires Faithful(store)
  {
    var g := w.generation;
    if i < 6 then d.(files := d.files[Temp(ARTIFACTS[i], g) := Content(w, ARTIFACTS[i])])
    else if i == 6 then d.(files := d.files[MarkerTemp(g) := MarkerOf(store, w)])
    else if i < 13 then
      var k := ARTIFACTS[i - 7];
      d.(files := (d.files - {Temp(k, g)})[Final(k, g) := Content(w, k)])
    else if i == 13 then d.(files := d.files[Final(Provenance, g) := ProvenanceOf(store, w)])
    else if i == 14 then d.(files := d.files[Final(Node, g) := NodeOf(store, w)])
    else if i == 15 then
      d.(manifest := d.manifest.(hashes := d.manifest.hashes[Final(Checkpoint, g) := CheckpointOf(store, w).sha],
                                 commits := d.manifest.commits[g := CommitOf(store, w)], config := Some(w.config)))
    else if i == 16 then
      match C.Registered(FilesOf(store, d.files), d.catalog, g, ArtifactsOf(store, w), None)
      case Ok(content) => d.(catalog := content)
      case Failed(_) => d
    else d.(files := (d.files - {MarkerTemp(g)})[Marker(g) := MarkerOf(store, w)])
  }

  /** The disk after the first k writes. */
  function Publish(store: Store, w: Work, d: Disk, k: nat): Disk
    requires Faithful(store)
  {
    if k == 0 then d else PublishStep(store, w, Publish(store, w, d, k - 1), k - 1)
  }

  /** Before a generation is published: nothing of it and nothing after it is on disk. */
  ghost predicate Ready(store: Store, w: Work, d: Disk)
    requires Faithful(store)
  {
    var g := w.generation;
    && (forall k :: Final(k, g) !in d.files && Temp(k, g) !in d.files) && Marker(g) !in d.files && MarkerTemp(g) !in d.files
    && (forall h: nat :: Marker(h) in d.files ==> h < g) && (forall h :: h in d.manifest.commits ==> h < g)
    && (forall h: nat :: Final(Checkpoint, h) in d.manifest.hashes ==> h < g)
    && C.Consistent(d.catalog) && g !in d.catalog.generations && (forall k :: store.Path(Final(k, g)) !in d.catalog.entries)
    && d.manifest.lineage == w.lineage && w.parent.generation + 1 == g
    && w.config.name.Elsewhere? && w.config.name in d.files && store.digest(d.files[w.config.name]) == w.config.sha
  }

  // ----- validating a completion marker -----

  predicate Present(store: Store, d: Disk, n: Name, sha: string) {
    n in d.files && store.digest(d.files[n]) == sha
  }

  ghost predicate Validates(store: Store, lineage: string, d: Disk, g: nat)
    requires Faithful(store)
  {
    && Marker(g) in d.files && d.files[Marker(g)].MarkerDoc?
    && Final(Node, g) in d.files && d.files[Final(Node, g)].NodeDoc?
    && var marker, node := d.files[Marker(g)], d.files[Final(Node, g)];
       && marker.generation == g && marker.lineage == lineage && (forall k :: k in ARTIFACTS ==> k in marker.hashes)
       && node.checkpoint.lineage == lineage && node.checkpoint.generation == g
       && Present(store, d, node.checkpoint.name, node.checkpoint.sha) && Present(store, d, node.freshReplay.name, node.freshReplay.sha)
       && marker.hashes[Checkpoint] == node.checkpoint.sha && marker.hashes[Fresh] == node.freshReplay.sha
       && (forall k :: k in {Rolling, Metadata, Training, Summary} ==> Present(store, d, Final(k, g), marker.hashes[k]))
       && Present(store, d, node.provenance.name, node.provenance.sha) && d.files[node.provenance.name].ProvenanceDoc?
       && var provenance := d.files[node.provenance.name];
          && provenance.checkpoint == node.checkpoint && provenance.parent == node.parent && provenance.freshReplay == node.freshReplay
          && provenance.config == node.config && provenance.reloadVerified
          && provenance.commit == Ref(Marker(g), store.digest(marker))
          && Present(store, d, node.config.name, node.config.sha)
          && d.manifest.lineage == lineage
          && node.checkpoint.name in d.manifest.hashes && d.manifest.hashes[node.checkpoint.name] == node.checkpoint.sha
          && store.Path(node.checkpoint.name) in d.catalog.entries && d.catalog.entries[store.Path(node.checkpoint.name)].sha == node.checkpoint.sha
  }

  // ----- removing what an unfinished publication left -----

  /** An exception before the fence: the temporary and final files go, the graph evidence stays. */
  function RolledBack(g: nat, d: Disk): Disk {
    d.(files := d.files - RollbackNames(g))
  }

  function RollbackNames(g: nat): set<Name> {
    (set k | k in ARTIFACTS :: Final(k, g)) + (set k | k in ARTIFACTS :: Temp(k, g)) + {Marker(g), MarkerTemp(g)}
  }

  /** Names removed by reconciliation, in its order. */
  function Leftovers(g: nat): seq<Name> {
    [Final(Fresh, g), Final(Rolling, g), Final(Checkpoint, g), Final(Metadata, g), Final(Training, g), Final(Summary, g),
     Final(Provenance, g), Final(Node, g), Temp(Fresh, g), Temp(Rolling, g), Temp(Checkpoint, g), Temp(Metadata, g),
     Temp(Training, g), Temp(Summary, g), MarkerTemp(g)]
  }

  ghost predicate LaterEvidence(d: Disk, g: nat) {
    || (exists h :: h > g && Marker(h) in d.files)
    || (exists h :: h > g && Final(Checkpoint, h) in d.manifest.hashes)
    || (exists h :: h > g && h in d.manifest.commits)
  }

  /** A graph file of the generation names its own checkpoint. */
  predicate OwnedBy(d: Disk, n: Name, lineage: string, g: nat) {
    n in d.files ==>
      var doc := d.files[n];
      (doc.ProvenanceDoc? || doc.NodeDoc?) && doc.checkpoint.lineage == lineage && doc.checkpoint.generation == g && doc.checkpoint.name == Final(Checkpoint, g)
  }

  ghost predicate CatalogBound(store: Store, d: Disk, g: nat)
    requires Faithful(store)
  {
    if g in d.catalog.generations then forall p :: p in d.catalog.generations[g].paths ==> exists k :: store.Path(Final(k, g)) == p
    else forall k :: store.Path(Final(k, g)) !in d.catalog.entries
  }

  ghost predicate MayReconcile(store: Store, lineage: string, d: Disk, g: nat)
    requires Faithful(store)
  {
    && d.manifest.lineage == lineage && !LaterEvidence(d, g)
    && OwnedBy(d, Final(Provenance, g), lineage, g) && OwnedBy(d, Final(Node, g), lineage, g)
    && (g in d.manifest.commits ==> d.manifest.commits[g].name == Marker(g))
    && CatalogBound(store, d, g)
  }

  function CleanManifest(m: Manifest, g: nat): Manifest {
    m.(hashes := m.hashes - {Final(Checkpoint, g)}, commits := m.commits - {g})
  }

  /** The disk after the first j writes of a reconciliation: the catalog, the manifest, then the files one by one. */
  ghost function ReconcileWrites(d: Disk, g: nat, j: nat): Disk {
    if j == 0 then d
    else if j == 1 then d.(catalog := C.Discarded(d.catalog, g))
    else if j == 2 then d.(catalog := C.Discarded(d.catalog, g), manifest := CleanManifest(d.manifest, g))
    else
      var before := ReconcileWrites(d, g, j - 1);
      if j - 3 < |Leftovers(g)| then before.(files := before.files - {Leftovers(g)[j - 3]}) else before
  }

  const RECONCILED := 17

  datatype Reconciliation = Refused | Kept | Removed(disk: Disk)

  /** A generation with its marker is left alone; one without is removed, or the request refused. */
  ghost function Reconcile(store: Store, lineage: string, d: Disk, g: nat): Reconciliation
    requires Faithful(store)
  {
    if Marker(g) in d.files then Kept
    else if !MayReconcile(store, lineage, d, g) then Refused
    else Removed(ReconcileWrites(d, g, RECONCILED))
  }

  // ----- what a publication adds -----

  predicate OfGeneration(n: Name, g: nat) {
    match n
    case Final(_, h) => h == g
    case Marker(h) => h == g
    case Temp(_, h) => h == g
    case MarkerTemp(h) => h == g
    case Elsewhere(_) => false
  }

  /** Names a publication in progress may have on disk, each with its own document. */
  ghost predicate OwnFiles(store: Store, w: Work, d: Disk) {
    var g := w.generation;
    && (forall k :: Final(k, g) in d.files ==> d.files[Final(k, g)] == Published(store, w, k))
    && (forall k :: Temp(k, g) in d.files ==> k in ARTIFACTS)
    && (Marker(g) in d.files ==> d.files[Marker(g)] == MarkerOf(store, w))
  }

  ghost predicate SameElsewhere(d0: Disk, d: Disk, g: nat) {
    forall n :: !OfGeneration(n, g) ==> (n in d.files <==> n in d0.files) && (n in d.files ==> d.files[n] == d0.files[n])
  }

  /** Manifest and catalog are the old ones, or the old ones with this generation added. */
  ghost predicate OwnEvidence(store: Store, w: Work, d0: Disk, d: Disk)
    requires Faithful(store)
  {
    var g := w.generation;
    && (d.manifest == d0.manifest ||
        d.manifest == d0.manifest.(hashes := d0.manifest.hashes[Final(Checkpoint, g) := CheckpointOf(store, w).sha],
                                   commits := d0.manifest.commits[g := CommitOf(store, w)], config := Some(w.config)))
    && (d.catalog == d0.catalog || exists files :: C.Registered(files, d0.catalog, g, ArtifactsOf(store, w), None) == C.Ok(d.catalog))
  }

  lemma {:induction false} PublishShape(store: Store, w: Work, d0: Disk, k: nat)
    requires Faithful(store) && Ready(store, w, d0) && k <= FENCE + 1
    ensures var d := Publish(store, w, d0, k);
      && SameElsewhere(d0, d, w.generation) && OwnFiles(store, w, d) && OwnEvidence(store, w, d0, d)
      && (k <= 15 ==> d.manifest == d0.manifest) && (k <= 16 ==> d.catalog == d0.catalog)
      && (Marker(w.generation) in d.files <==> k == FENCE + 1)
  {
    hide MarkerOf, CheckpointOf, CommitOf, ProvenanceOf, NodeOf, ArtifactsOf, Faithful, C.Registered, FilesOf;
    if k > 0 {
      PublishShape(store, w, d0, k - 1);
      StepShape(store, w, d0, Publish(store, w, d0, k - 1), k - 1);
    }
  }

  lemma StepShape(store: Store, w: Work, d0: Disk, d: Disk, i: nat)
    requires Faithful(store) && i <= FENCE
    requires SameElsewhere(d0, d, w.generation) && OwnFiles(store, w, d) && OwnEvidence(store, w, d0, d)
    requires (i <= 15 ==> d.manifest == d0.manifest) && (i <= 16 ==> d.catalog == d0.catalog) && Marker(w.generation) !in d.files
    ensures var d' := PublishStep(store, w, d, i);
      && SameElsewhere(d0, d', w.generation) && OwnFiles(store, w, d') && OwnEvidence(store, w, d0, d')
      && (i + 1 <= 15 ==> d'.manifest == d0.manifest) && (i + 1 <= 16 ==> d'.catalog == d0.catalog)
      && (Marker(w.generation) in d'.files <==> i == FENCE)
  {
    hide *;
    StepFiles(store, w, d0, d, i);
    StepEvidence(store, w, d0, d, i);
  }

  lemma StepFiles(store: Store, w: Work, d0: Disk, d: Disk, i: nat)
    requires Faithful(store) && i <= FENCE && SameElsewhere(d0, d, w.generation) && OwnFiles(store, w, d) && Marker(w.generation) !in d.files
    ensures var d' := PublishStep(store, w, d, i);
      SameElsewhere(d0, d', w.generation) && OwnFiles(store, w, d') && (Marker(w.generation) in d'.files <==> i == FENCE)
  {
    hide MarkerOf, CheckpointOf, CommitOf, ProvenanceOf, NodeOf, ArtifactsOf, Faithful, C.Registered, FilesOf, SameElsewhere, OwnFiles, Content;
    var g, d' := w.generation, PublishStep(store, w, d, i);
    if i < 6 {
      FilePut(store, w, d0, d, d', {}, Temp(ARTIFACTS[i], g), Content(w, ARTIFACTS[i]));
    } else if i == 6 {
      FilePut(store, w, d0, d, d', {}, MarkerTemp(g), MarkerOf(store, w));
    } else if i < 13 {
      FilePut(store, w, d0, d, d', {Temp(ARTIFACTS[i - 7], g)}, Final(ARTIFACTS[i - 7], g), Content(w, ARTIFACTS[i - 7]));
    } else if i == 13 {
      FilePut(store, w, d0, d, d', {}, Final(Provenance, g), ProvenanceOf(store, w));
    } else if i == 14 {
      FilePut(store, w, d0, d, d', {}, Final(Node, g), NodeOf(store, w));
    } else if i < FENCE {
      FilesAlike(store, w, d0, d, d');
    } else {
      FilePut(store, w, d0, d, d', {MarkerTemp(g)}, Marker(g), MarkerOf(store, w));
    }
  }

  lemma FilesAlike(store: Store, w: Work, d0: Disk, d: Disk, d': Disk)
    requires SameElsewhere(d0, d, w.generation) && OwnFiles(store, w, d) && Marker(w.generation) !in d.files && d'.files == d.files
    ensures SameElsewhere(d0, d', w.generation) && OwnFiles(store, w, d') && Marker(w.generation) !in d'.files
  {
    hide MarkerOf, Published;
  }

  /** One file of the generation is written or renamed. */
  lemma FilePut(store: Store, w: Work, d0: Disk, d: Disk, d': Disk, gone: set<Name>, n: Name, doc: Doc)
    requires SameElsewhere(d0, d, w.generation) && OwnFiles(store, w, d) && Marker(w.generation) !in d.files
    requires d'.files == (d.files - gone)[n := doc] && OfGeneration(n, w.generation) && forall x :: x in gone ==> OfGeneration(x, w.generation)
    requires (n.Final? ==> doc == Published(store, w, n.kind)) && (n.Temp? ==> n.kind in ARTIFACTS) && (n.Marker? ==> doc == MarkerOf(store, w))
    ensures SameElsewhere(d0, d', w.generation) && OwnFiles(store, w, d') && (Marker(w.generation) in d'.files <==> n.Marker?)
  {
    hide MarkerOf, Published;
  }

  lemma StepEvidence(store: Store, w: Work, d0: Disk, d: Disk, i: nat)
    requires Faithful(store) && i <= FENCE && OwnEvidence(store, w, d0, d)
    requires (i <= 15 ==> d.manifest == d0.manifest) && (i <= 16 ==> d.catalog == d0.catalog)
    ensures var d' := PublishStep(store, w, d, i);
      OwnEvidence(store, w, d0, d') && (i + 1 <= 15 ==> d'.manifest == d0.manifest) && (i + 1 <= 16 ==> d'.catalog == d0.catalog)
  {
    hide MarkerOf, CheckpointOf, CommitOf, ProvenanceOf, NodeOf, ArtifactsOf, Faithful, C.Registered, FilesOf;
    if i == 16 {
      RegisterShape(store, w, d0, d);
    }
  }

  lemma RegisterShape(store: Store, w: Work, d0: Disk, d: Disk)
    requires Faithful(store) && d.catalog == d0.catalog && OwnEvidence(store, w, d0, d)
    ensures OwnEvidence(store, w, d0, PublishStep(store, w, d, 16))
  {
    hide MarkerOf, CheckpointOf, CommitOf, ProvenanceOf, NodeOf, ArtifactsOf, Faithful, C.Registered, FilesOf;
  }

  // ----- reconciliation undoes a publication -----

  function NamesOf(names: seq<Name>, j: nat): set<Name>
    requires j <= |names|
  {
    set i | 0 <= i < j :: names[i]
  }

  /** The first j writes in closed form. */
  lemma {:induction false} ReconcileShape(d: Disk, g: nat, j: nat)
    requires 2 <= j <= RECONCILED
    ensures ReconcileWrites(d, g, j) ==
            Disk(d.files - NamesOf(Leftovers(g), j - 2), CleanManifest(d.manifest, g), C.Discarded(d.catalog, g))
  {
    hide C.Discarded, Leftovers;
    LeftoverCount(g);
    if j == 2 {
      assert NamesOf(Leftovers(g), 0) == {};
      assert d.files - {} == d.files;
    } else {
      ReconcileShape(d, g, j - 1);
      assert NamesOf(Leftovers(g), j - 2) == NamesOf(Leftovers(g), j - 3) + {Leftovers(g)[j - 3]};
      RemoveMore(d.files, NamesOf(Leftovers(g), j - 3), {Leftovers(g)[j - 3]});
    }
  }

  lemma LeftoverCount(g: nat)
    ensures |Leftovers(g)| == RECONCILED - 2
  {
  }

  lemma RemoveMore(files: map<Name, Doc>, a: set<Name>, b: set<Name>)
    ensures (files - a) - b == files - (a + b)
  {
  }

  /** Every name of the generation except its marker is removed, and no other. */
  lemma LeftoversAre(g: nat, n: Name)
    ensures n in NamesOf(Leftovers(g), RECONCILED - 2) <==>
      match n
      case Final(_, h) => h == g
      case Temp(k, h) => h == g && k in ARTIFACTS
      case MarkerTemp(h) => h == g
      case _ => false
  {
    hide NamesOf;
    LeftoverCount(g);
    AllNames(Leftovers(g), n);
    if n.Final? || n.Temp? {
      OwnLeftover(g, n.kind);
    }
    if n == MarkerTemp(g) {
      assert Leftovers(g)[14] == n;
    }
  }

  lemma OwnLeftover(g: nat, k: Kind)
    ensures Final(k, g) in Leftovers(g) && (Temp(k, g) in Leftovers(g) <==> k in ARTIFACTS)
  {
    var names := Leftovers(g);
    match k {
      case Fresh => assert names[0] == Final(k, g) && names[8] == Temp(k, g) && ARTIFACTS[0] == k;
      case Rolling => assert names[1] == Final(k, g) && names[9] == Temp(k, g) && ARTIFACTS[1] == k;
      case Checkpoint => assert names[2] == Final(k, g) && names[10] == Temp(k, g) && ARTIFACTS[2] == k;
      case Metadata => assert names[3] == Final(k, g) && names[11] == Temp(k, g) && ARTIFACTS[3] == k;
      case Training => assert names[4] == Final(k, g) && names[12] == Temp(k, g) && ARTIFACTS[4] == k;
      case Summary => assert names[5] == Final(k, g) && names[13] == Temp(k, g) && ARTIFACTS[5] == k;
      case Provenance => assert names[6] == Final(k, g);
      case Node => assert names[7] == Final(k, g);
    }
  }

  lemma AllNames(names: seq<Name>, n: Name)
    ensures n in NamesOf(names, |names|) <==> n in names
  {
  }

  /** The catalog is restored exactly. */
  lemma CatalogRestored(store: Store, w: Work, d0: Disk, d: Disk)
    requires Faithful(store) && Ready(store, w, d0) && OwnEvidence(store, w, d0, d)
    ensures C.Discarded(d.catalog, w.generation) == d0.catalog && CatalogBound(store, d, w.generation)
  {
    hide Faithful, C.Registered, C.Discarded, ArtifactsOf, C.Consistent;
    var g := w.generation;
    if d.catalog == d0.catalog {
      NothingToDiscard(d0.catalog, g);
    } else {
      var files :| C.Registered(files, d0.catalog, g, ArtifactsOf(store, w), None) == C.Ok(d.catalog);
      C.DiscardRestores(files, d0.catalog, g, ArtifactsOf(store, w), None);
      RecordBound(store, w, files, d0.catalog);
    }
  }

  lemma NothingToDiscard(c: C.Content, g: nat)
    requires g !in c.generations
    ensures C.Discarded(c, g) == c
  {
  }

  /** A registered generation references only its own final names. */
  lemma RecordBound(store: Store, w: Work, files: map<C.Path, C.File>, c: C.Content)
    requires Faithful(store) && C.Registered(files, c, w.generation, ArtifactsOf(store, w), None).Ok?
    ensures var record := C.Registered(files, c, w.generation, ArtifactsOf(store, w), None).value.generations;
      && w.generation in record && forall p :: p in record[w.generation].paths ==> exists k :: store.Path(Final(k, w.generation)) == p
  {
    hide C.EnterAll, C.Checked;
    var artifacts := ArtifactsOf(store, w);
    forall p | p in C.PathsOf(files, artifacts) ensures exists k :: store.Path(Final(k, w.generation)) == p {
      var i := C.PathFrom(files, artifacts, p);
      PathIs(store, w, files, CATALOGED[i]);
    }
  }

  lemma PathIs(store: Store, w: Work, files: map<C.Path, C.File>, k: Kind)
    requires Faithful(store)
    ensures C.Checked(files, ArtifactOf(store, w, k)).Ok? ==>
              C.Checked(files, ArtifactOf(store, w, k)).value.path == store.Path(Final(k, w.generation))
  {
    hide Published;
  }

  /** Manifest entries are taken back; only the configuration reference keeps the new value. */
  lemma ManifestRestored(store: Store, w: Work, d0: Disk, d: Disk)
    requires Faithful(store) && Ready(store, w, d0) && OwnEvidence(store, w, d0, d)
    ensures CleanManifest(d.manifest, w.generation) == d0.manifest.(config := d.manifest.config)
    ensures d.manifest == d0.manifest || d.manifest.config == Some(w.config)
  {
    hide Faithful, C.Registered, C.Consistent, ArtifactsOf, CheckpointOf, CommitOf;
    var g := w.generation;
    assert Final(Checkpoint, g) !in d0.manifest.hashes && g !in d0.manifest.commits;
    assert CleanManifest(d.manifest, g).hashes == d0.manifest.hashes;
    assert CleanManifest(d.manifest, g).commits == d0.manifest.commits;
  }

  lemma FilesRestored(store: Store, w: Work, d0: Disk, d: Disk)
    requires Faithful(store) && Ready(store, w, d0) && SameElsewhere(d0, d, w.generation) && OwnFiles(store, w, d) && Marker(w.generation) !in d.files
    ensures d.files - NamesOf(Leftovers(w.generation), RECONCILED - 2) == d0.files
  {
    hide Faithful, C.Consistent, Leftovers, NamesOf, Published, MarkerOf;
    var g := w.generation;
    LeftoverCount(g);
    var gone := NamesOf(Leftovers(g), RECONCILED - 2);
    forall n ensures n in d.files && n !in gone <==> n in d0.files {
      LeftoversAre(g, n);
    }
    assert (d.files - gone).Keys == d0.files.Keys;
    forall n | n in d0.files ensures (d.files - gone)[n] == d0.files[n] {
      LeftoversAre(g, n);
    }
  }

  lemma NoLater(store: Store, w: Work, d0: Disk, d: Disk)
    requires Faithful(store) && Ready(store, w, d0) && SameElsewhere(d0, d, w.generation) && OwnEvidence(store, w, d0, d)
    ensures !LaterEvidence(d, w.generation)
  {
    hide Faithful, C.Consistent, C.Registered, ArtifactsOf, CheckpointOf, CommitOf;
    forall h: nat | h > w.generation ensures Marker(h) !in d.files && Final(Checkpoint, h) !in d.manifest.hashes && h !in d.manifest.commits {
      assert !OfGeneration(Marker(h), w.generation);
    }
  }

  lemma OwnGraph(store: Store, w: Work, d: Disk)
    requires OwnFiles(store, w, d)
    ensures OwnedBy(d, Final(Provenance, w.generation), w.lineage, w.generation) && OwnedBy(d, Final(Node, w.generation), w.lineage, w.generation)
  {
    hide MarkerOf, FreshOf, CommitOf;
  }

  /** Disks on which reconciliation of this generation leads back to the start, whatever part of it is still there. */
  ghost predicate Removable(store: Store, w: Work, d0: Disk, d: Disk)
    requires Faithful(store)
  {
    && SameElsewhere(d0, d, w.generation) && OwnFiles(store, w, d) && OwnEvidence(store, w, d0, d) && Marker(w.generation) !in d.files
  }

  lemma RemovableReconciles(store: Store, w: Work, d0: Disk, d: Disk)
    requires Faithful(store) && Ready(store, w, d0) && Removable(store, w, d0, d)
    ensures Reconcile(store, w.lineage, d, w.generation) == Removed(d0.(manifest := d0.manifest.(config := d.manifest.config)))
  {
    hide Faithful, C.Registered, C.Discarded, ArtifactsOf, C.Consistent, CatalogBound, LaterEvidence, OwnedBy, Leftovers, NamesOf, ReconcileWrites, Published, MarkerOf, CheckpointOf;
    NoLater(store, w, d0, d);
    OwnGraph(store, w, d);
    CatalogRestored(store, w, d0, d);
    ManifestRestored(store, w, d0, d);
    FilesRestored(store, w, d0, d);
    LeftoverCount(w.generation);
    ReconcileShape(d, w.generation, RECONCILED);
    CommitNamed(store, w, d0, d);
    ReadyLineage(store, w, d0);
  }

  lemma ReadyLineage(store: Store, w: Work, d0: Disk)
    requires Faithful(store) && Ready(store, w, d0)
    ensures d0.manifest.lineage == w.lineage
  {
  }

  lemma CommitNamed(store: Store, w: Work, d0: Disk, d: Disk)
    requires Faithful(store) && Ready(store, w, d0) && OwnEvidence(store, w, d0, d)
    ensures w.generation in d.manifest.commits ==> d.manifest.commits[w.generation].name == Marker(w.generation)
    ensures d.manifest.lineage == d0.manifest.lineage
  {
    hide Faithful, C.Registered, C.Consistent, ArtifactsOf, CheckpointOf, MarkerOf;
  }

  /** A crash at any point of a publication before its marker: reconciliation brings back the disk as it was,
      except for the manifest's configuration reference, which the manifest write has already replaced. */
  lemma ReconcileUndoesPublication(store: Store, w: Work, d0: Disk, k: nat)
    requires Faithful(store) && Ready(store, w, d0) && k <= FENCE
    ensures var d := Publish(store, w, d0, k);
      && Reconcile(store, w.lineage, d, w.generation) == Removed(d0.(manifest := d0.manifest.(config := d.manifest.config)))
      && (d.manifest.config == d0.manifest.config || d.manifest.config == Some(w.config))
  {
    hide Faithful, Ready, Reconcile, Publish, C.Registered;
    PublishShape(store, w, d0, k);
    RemovableReconciles(store, w, d0, Publish(store, w, d0, k));
    ManifestRestored(store, w, d0, Publish(store, w, d0, k));
  }

  /** Exactly which disks come back unchanged. */
  lemma RestoredExactly(store: Store, w: Work, d0: Disk, k: nat)
    requires Faithful(store) && Ready(store, w, d0) && k <= FENCE
    ensures Reconcile(store, w.lineage, Publish(store, w, d0, k), w.generation) == Removed(d0) <==> k <= 15 || d0.manifest.config == Some(w.config)
  {
    hide Faithful, Ready, Reconcile, C.Registered;
    PublishShape(store, w, d0, k);
    ReconcileUndoesPublication(store, w, d0, k);
    ConfigWritten(store, w, d0, k);
    var d := Publish(store, w, d0, k);
    if d.manifest.config == d0.manifest.config {
      assert d0.(manifest := d0.manifest.(config := d.manifest.config)) == d0;
    } else {
      assert d0.(manifest := d0.manifest.(config := d.manifest.config)).manifest.config != d0.manifest.config;
    }
  }

  lemma {:induction false} ConfigWritten(store: Store, w: Work, d0: Disk, k: nat)
    requires Faithful(store) && k <= FENCE
    ensures k >= 16 ==> Publish(store, w, d0, k).manifest.config == Some(w.config)
  {
    hide Faithful, C.Registered, FilesOf, ArtifactsOf, CheckpointOf, CommitOf, NodeOf, ProvenanceOf, MarkerOf;
    if k >= 17 {
      ConfigWritten(store, w, d0, k - 1);
    }
  }

  /** With the marker in place reconciliation leaves the generation alone. */
  lemma FenceIsFinal(store: Store, w: Work, d0: Disk)
    requires Faithful(store) && Ready(store, w, d0)
    ensures Reconcile(store, w.lineage, Publish(store, w, d0, FENCE + 1), w.generation) == Kept
  {
    hide Faithful, Ready, Publish, OwnEvidence;
    PublishShape(store, w, d0, FENCE + 1);
  }

  // ----- earlier generations -----

  /** Everything recorded before is still there. */
  ghost predicate Extends(d0: Disk, d: Disk) {
    && (forall n :: n in d0.files ==> n in d.files && d.files[n] == d0.files[n])
    && d.manifest.lineage == d0.manifest.lineage
    && (forall n :: n in d0.manifest.hashes ==> n in d.manifest.hashes && d.manifest.hashes[n] == d0.manifest.hashes[n])
    && (forall p :: p in d0.catalog.entries ==> p in d.catalog.entries && d.catalog.entries[p] == d0.catalog.entries[p])
  }

  lemma ValidatesMonotone(store: Store, lineage: string, d0: Disk, d: Disk, h: nat)
    requires Faithful(store) && Extends(d0, d) && Validates(store, lineage, d0, h)
    ensures Validates(store, lineage, d, h)
  {
    hide Faithful;
  }

  lemma EvidenceExtends(store: Store, w: Work, d0: Disk, d: Disk)
    requires Faithful(store) && Ready(store, w, d0) && SameElsewhere(d0, d, w.generation) && OwnEvidence(store, w, d0, d)
    ensures Extends(d0, d)
  {
    hide Faithful, C.Registered, C.Consistent, ArtifactsOf, CheckpointOf, CommitOf;
    var g := w.generation;
    if d.catalog != d0.catalog {
      var files :| C.Registered(files, d0.catalog, g, ArtifactsOf(store, w), None) == C.Ok(d.catalog);
      C.RegistrationKeeps(files, d0.catalog, g, ArtifactsOf(store, w), None);
    }
    forall n | n in d0.files ensures !OfGeneration(n, g) {
    }
  }

  /** All earlier generations still validate, at every prefix of the publication. */
  lemma EarlierStillValidate(store: Store, w: Work, d0: Disk, k: nat, h: nat)
    requires Faithful(store) && Ready(store, w, d0) && k <= FENCE + 1 && Validates(store, w.lineage, d0, h)
    ensures Validates(store, w.lineage, Publish(store, w, d0, k), h)
  {
    hide Faithful, Ready, Validates, Extends, OwnEvidence, SameElsewhere, OwnFiles;
    PublishShape(store, w, d0, k);
    EvidenceExtends(store, w, d0, Publish(store, w, d0, k));
    ValidatesMonotone(store, w.lineage, d0, Publish(store, w, d0, k), h);
  }

  // ----- rollback -----

  /** An exception before the fence: none of the generation's temporary and final artifacts is left, the generation
      does not validate, the earlier ones do, and reconciliation still leads back to the start. */
  lemma RollbackBeforeFence(store: Store, w: Work, d0: Disk, k: nat, h: nat)
    requires Faithful(store) && Ready(store, w, d0) && k <= FENCE
    ensures var d := RolledBack(w.generation, Publish(store, w, d0, k));
      && (forall kind :: kind in ARTIFACTS ==> Final(kind, w.generation) !in d.files && Temp(kind, w.generation) !in d.files)
      && Marker(w.generation) !in d.files && MarkerTemp(w.generation) !in d.files
      && !Validates(store, w.lineage, d, w.generation) && (Validates(store, w.lineage, d0, h) ==> Validates(store, w.lineage, d, h))
      && Reconcile(store, w.lineage, d, w.generation) == Removed(d0.(manifest := d0.manifest.(config := d.manifest.config)))
  {
    hide Faithful, Ready, Validates, Reconcile, OwnEvidence, Publish, Extends;
    var d := Publish(store, w, d0, k);
    var d' := RolledBack(w.generation, d);
    PublishShape(store, w, d0, k);
    RollbackRemovable(store, w, d0, d);
    RemovableReconciles(store, w, d0, d');
    EvidenceExtends(store, w, d0, d');
    if Validates(store, w.lineage, d0, h) {
      ValidatesMonotone(store, w.lineage, d0, d', h);
    }
    NoMarkerNoCommit(store, w.lineage, d', w.generation);
    RollbackRemoves(w.generation, d);
  }

  lemma RollbackRemoves(g: nat, d: Disk)
    ensures var d' := RolledBack(g, d);
      (forall kind :: kind in ARTIFACTS ==> Final(kind, g) !in d'.files && Temp(kind, g) !in d'.files) && Marker(g) !in d'.files && MarkerTemp(g) !in d'.files
  {
    var names := RollbackNames(g);
    forall kind | kind in ARTIFACTS ensures Final(kind, g) in names && Temp(kind, g) in names {
    }
  }

  lemma RollbackRemovable(store: Store, w: Work, d0: Disk, d: Disk)
    requires Faithful(store) && SameElsewhere(d0, d, w.generation) && OwnFiles(store, w, d) && OwnEvidence(store, w, d0, d)
    ensures Removable(store, w, d0, RolledBack(w.generation, d))
  {
    hide Faithful, OwnEvidence, Published, MarkerOf;
    var d' := RolledBack(w.generation, d);
    forall n | n in RollbackNames(w.generation) ensures OfGeneration(n, w.generation) {
    }
    SameEvidence(store, w, d0, d, d');
  }

  lemma SameEvidence(store: Store, w: Work, d0: Disk, d: Disk, d': Disk)
    requires Faithful(store) && OwnEvidence(store, w, d0, d) && d'.manifest == d.manifest && d'.catalog == d.catalog
    ensures OwnEvidence(store, w, d0, d')
  {
    hide Faithful, C.Registered, ArtifactsOf, CheckpointOf, CommitOf;
  }

  lemma NoMarkerNoCommit(store: Store, lineage: string, d: Disk, g: nat)
    requires Faithful(store) && Marker(g) !in d.files
    ensures !Validates(store, lineage, d, g)
  {
  }

  /** A reconciliation interrupted after any of its writes is finished by the next one, with the same disk. */
  lemma InterruptedReconciliation(store: Store, w: Work, d0: Disk, d: Disk, j: nat)
    requires Faithful(store) && Ready(store, w, d0) && Removable(store, w, d0, d) && j <= RECONCILED
    ensures Reconcile(store, w.lineage, ReconcileWrites(d, w.generation, j), w.generation) == Reconcile(store, w.lineage, d, w.generation)
  {
    hide Faithful, Ready, Reconcile, OwnEvidence, OwnFiles, SameElsewhere, ReconcileWrites, CleanManifest, C.Discarded;
    RemovableReconciles(store, w, d0, d);
    if j < 2 {
      CatalogFirst(store, w, d0, d, j);
      RemovableReconciles(store, w, d0, ReconcileWrites(d, w.generation, j));
    } else {
      InterruptedLater(store, w, d0, d, j);
    }
  }

  lemma CatalogFirst(store: Store, w: Work, d0: Disk, d: Disk, j: nat)
    requires Faithful(store) && Ready(store, w, d0) && Removable(store, w, d0, d) && j < 2
    ensures var d' := ReconcileWrites(d, w.generation, j); Removable(store, w, d0, d') && d'.manifest == d.manifest
  {
    hide Faithful, Ready, C.Discarded, C.Registered, ArtifactsOf, CheckpointOf, CommitOf, Published, MarkerOf;
    CatalogRestored(store, w, d0, d);
  }

  lemma InterruptedLater(store: Store, w: Work, d0: Disk, d: Disk, j: nat)
    requires Faithful(store) && Ready(store, w, d0) && Removable(store, w, d0, d) && 2 <= j <= RECONCILED
    ensures Reconcile(store, w.lineage, ReconcileWrites(d, w.generation, j), w.generation) == Reconcile(store, w.lineage, d, w.generation)
  {
    hide Faithful, Ready, Reconcile, OwnEvidence, ReconcileWrites, CleanManifest, C.Discarded, Leftovers;
    var g := w.generation;
    var d' := ReconcileWrites(d, g, j);
    LeftoverCount(g);
    ReconcileShape(d, g, j);
    CatalogRestored(store, w, d0, d);
    ManifestRestored(store, w, d0, d);
    RemovableReconciles(store, w, d0, d);
    var d1 := d0.(manifest := d0.manifest.(config := d.manifest.config));
    ReadyWithConfig(store, w, d0, d1);
    StillRemovable(store, w, d0, d1, d, d', NamesOf(Leftovers(g), j - 2));
    RemovableReconciles(store, w, d1, d');
  }

  lemma ReadyWithConfig(store: Store, w: Work, d0: Disk, d1: Disk)
    requires Faithful(store) && Ready(store, w, d0) && d1 == d0.(manifest := d0.manifest.(config := d1.manifest.config))
    ensures Ready(store, w, d1)
  {
    hide Faithful, C.Consistent;
  }

  lemma StillRemovable(store: Store, w: Work, d0: Disk, d1: Disk, d: Disk, d': Disk, gone: set<Name>)
    requires Faithful(store) && Removable(store, w, d0, d) && d1 == d0.(manifest := d0.manifest.(config := d1.manifest.config))
    requires d'.files == d.files - gone && d'.manifest == d1.manifest && d'.catalog == d1.catalog
    requires gone <= NamesOf(Leftovers(w.generation), |Leftovers(w.generation)|)
    ensures Removable(store, w, d1, d')
  {
    hide Faithful, OwnEvidence, Published, MarkerOf, Leftovers, NamesOf;
    LeftoverCount(w.generation);
    forall n | n in gone ensures OfGeneration(n, w.generation) {
      LeftoversAre(w.generation, n);
    }
    UnchangedEvidence(store, w, d1, d');
  }

  lemma UnchangedEvidence(store: Store, w: Work, d0: Disk, d: Disk)
    requires Faithful(store) && d.manifest == d0.manifest && d.catalog == d0.catalog
    ensures OwnEvidence(store, w, d0, d)
  {
    hide Faithful, C.Registered, ArtifactsOf;
  }

  // ----- the fence -----

  /** What is on disk once the six artifacts are renamed. */
  ghost predicate Renamed(store: Store, w: Work, d: Disk, k: nat) {
    && (forall i :: 0 <= i < |CATALOGED| && i + 8 <= k && i < 6 ==> Has(store, w, d, CATALOGED[i]))
    && (k >= 14 ==> Has(store, w, d, Provenance)) && (k >= 15 ==> Has(store, w, d, Node))
  }

  predicate Has(store: Store, w: Work, d: Disk, kind: Kind) {
    Final(kind, w.generation) in d.files && d.files[Final(kind, w.generation)] == Published(store, w, kind)
  }

  lemma {:induction false} RenamedSoFar(store: Store, w: Work, d0: Disk, k: nat)
    requires Faithful(store) && k <= FENCE + 1
    ensures Renamed(store, w, Publish(store, w, d0, k), k)
  {
    hide Faithful, Has, PublishStep;
    if k > 0 {
      RenamedSoFar(store, w, d0, k - 1);
      StepHas(store, w, Publish(store, w, d0, k - 1), k - 1);
      forall i | 0 <= i < |CATALOGED| && i < 6 && i + 8 == k ensures Has(store, w, Publish(store, w, d0, k), CATALOGED[i]) {
        assert CATALOGED[i] == ARTIFACTS[k - 1 - 7];
      }
    }
  }

  /** Final files appear with their documents and stay. */
  lemma StepHas(store: Store, w: Work, d: Disk, i: nat)
    requires Faithful(store) && i <= FENCE
    ensures forall kind :: Has(store, w, d, kind) ==> Has(store, w, PublishStep(store, w, d, i), kind)
    ensures 7 <= i < 13 ==> Has(store, w, PublishStep(store, w, d, i), ARTIFACTS[i - 7])
    ensures i == 13 ==> Has(store, w, PublishStep(store, w, d, i), Provenance)
    ensures i == 14 ==> Has(store, w, PublishStep(store, w, d, i), Node)
  {
    hide Faithful, MarkerOf, CheckpointOf, CommitOf, ProvenanceOf, NodeOf, ArtifactsOf, C.Registered, FilesOf;
    if 7 <= i < 13 {
      assert Published(store, w, ARTIFACTS[i - 7]) == Content(w, ARTIFACTS[i - 7]);
    }
  }

  lemma AllPublished(store: Store, w: Work, d: Disk, k: nat)
    requires Renamed(store, w, d, k) && k >= 15
    ensures forall kind: Kind :: Has(store, w, d, kind)
  {
    hide Has;
    forall kind: Kind ensures Has(store, w, d, kind) {
      match kind {
        case Fresh => assert CATALOGED[0] == kind;
        case Rolling => assert CATALOGED[1] == kind;
        case Checkpoint => assert CATALOGED[2] == kind;
        case Metadata => assert CATALOGED[3] == kind;
        case Training => assert CATALOGED[4] == kind;
        case Summary => assert CATALOGED[5] == kind;
        case Provenance =>
        case Node =>
      }
    }
  }

  /** With all eight files in place the catalog accepts the generation. */
  lemma RegistrationGoesThrough(store: Store, w: Work, d0: Disk, d: Disk)
    requires Faithful(store) && Ready(store, w, d0) && d.catalog == d0.catalog && (forall kind: Kind :: Has(store, w, d, kind))
    ensures C.Registered(FilesOf(store, d.files), d.catalog, w.generation, ArtifactsOf(store, w), None).Ok?
  {
    hide Published, C.Checked, C.Consistent;
    var files, artifacts := FilesOf(store, d.files), ArtifactsOf(store, w);
    forall i | 0 <= i < |artifacts| ensures C.Checked(files, artifacts[i]) == C.Ok(IdentityOf(store, w, CATALOGED[i])) {
      ArtifactChecks(store, w, d, CATALOGED[i]);
    }
    forall i, j | 0 <= i < j < |artifacts| ensures C.Checked(files, artifacts[i]).value.path != C.Checked(files, artifacts[j]).value.path {
      assert store.Path(Final(CATALOGED[i], w.generation)) != store.Path(Final(CATALOGED[j], w.generation));
    }
    C.RegistrationSucceeds(files, d.catalog, w.generation, artifacts, None);
  }

  function IdentityOf(store: Store, w: Work, k: Kind): C.Identity
    requires C.SafeRelative(store.raw(Final(k, w.generation))).Some?
  {
    C.Identity(store.Path(Final(k, w.generation)), store.digest(Published(store, w, k)), store.size(Published(store, w, k)), map[])
  }

  lemma ArtifactChecks(store: Store, w: Work, d: Disk, k: Kind)
    requires Faithful(store) && Has(store, w, d, k)
    ensures C.Checked(FilesOf(store, d.files), ArtifactOf(store, w, k)) == C.Ok(IdentityOf(store, w, k))
  {
    hide Published;
    assert store.Path(Final(k, w.generation)) in FilesOf(store, d.files);
  }

  lemma CatalogHasCheckpoint(store: Store, w: Work, d: Disk, d': Disk)
    requires Faithful(store) && (forall kind: Kind :: Has(store, w, d, kind))
    requires C.Registered(FilesOf(store, d.files), d.catalog, w.generation, ArtifactsOf(store, w), None) == C.Ok(d'.catalog)
    ensures var p := store.Path(Final(Checkpoint, w.generation)); p in d'.catalog.entries && d'.catalog.entries[p].sha == CheckpointOf(store, w).sha
  {
    hide C.EnterAll, C.Checked;
    var files, artifacts := FilesOf(store, d.files), ArtifactsOf(store, w);
    C.EnterAllExactly(files, d.catalog.entries, artifacts);
    assert CATALOGED[2] == Checkpoint;
    C.EarlierIdentity(files, artifacts, d'.catalog.entries, 2);
    ArtifactChecks(store, w, d, Checkpoint);
  }

  /** After the last write before the fence everything but the marker is in place. */
  ghost predicate Prepared(store: Store, w: Work, d: Disk)
    requires Faithful(store)
  {
    && (forall kind: Kind :: Has(store, w, d, kind))
    && d.manifest.lineage == w.lineage
    && Final(Checkpoint, w.generation) in d.manifest.hashes && d.manifest.hashes[Final(Checkpoint, w.generation)] == CheckpointOf(store, w).sha
    && (var p := store.Path(Final(Checkpoint, w.generation)); p in d.catalog.entries && d.catalog.entries[p].sha == CheckpointOf(store, w).sha)
    && w.config.name.Elsewhere? && w.config.name in d.files && store.digest(d.files[w.config.name]) == w.config.sha
  }

  lemma PreparedAtFence(store: Store, w: Work, d0: Disk)
    requires Faithful(store) && Ready(store, w, d0)
    ensures Prepared(store, w, Publish(store, w, d0, FENCE))
  {
    hide Faithful, MarkerOf, CheckpointOf, CommitOf, ProvenanceOf, NodeOf, ArtifactsOf, C.Registered, FilesOf, C.Consistent, Publish, Published, OwnEvidence;
    var d, d' := Publish(store, w, d0, FENCE - 1), Publish(store, w, d0, FENCE);
    RenamedSoFar(store, w, d0, FENCE - 1);
    AllPublished(store, w, d, FENCE - 1);
    RenamedSoFar(store, w, d0, FENCE);
    AllPublished(store, w, d', FENCE);
    PublishShape(store, w, d0, FENCE - 1);
    PublishShape(store, w, d0, FENCE);
    RegistrationGoesThrough(store, w, d0, d);
    LastPrepared(store, w, d0);
    CatalogHasCheckpoint(store, w, d, d');
    ManifestHasCheckpoint(store, w, d0);
    ConfigPresent(store, w, d0, d');
  }

  lemma LastPrepared(store: Store, w: Work, d0: Disk)
    requires Faithful(store)
    requires var d := Publish(store, w, d0, FENCE - 1); C.Registered(FilesOf(store, d.files), d.catalog, w.generation, ArtifactsOf(store, w), None).Ok?
    ensures var d, d' := Publish(store, w, d0, FENCE - 1), Publish(store, w, d0, FENCE);
      C.Registered(FilesOf(store, d.files), d.catalog, w.generation, ArtifactsOf(store, w), None) == C.Ok(d'.catalog) && d'.manifest == d.manifest
  {
    hide Faithful, C.Registered, FilesOf, ArtifactsOf;
  }

  lemma ManifestHasCheckpoint(store: Store, w: Work, d0: Disk)
    requires Faithful(store) && Ready(store, w, d0)
    ensures var m := Publish(store, w, d0, FENCE - 1).manifest;
      Final(Checkpoint, w.generation) in m.hashes && m.hashes[Final(Checkpoint, w.generation)] == CheckpointOf(store, w).sha && m.lineage == w.lineage
  {
    hide Faithful, C.Registered, FilesOf, ArtifactsOf, CheckpointOf, CommitOf, C.Consistent, OwnEvidence, OwnFiles, SameElsewhere;
    PublishShape(store, w, d0, FENCE - 2);
    assert FENCE - 1 == (FENCE - 2) + 1;
    assert Publish(store, w, d0, FENCE - 1) == PublishStep(store, w, Publish(store, w, d0, FENCE - 2), FENCE - 2);
  }

  lemma ConfigPresent(store: Store, w: Work, d0: Disk, d: Disk)
    requires Faithful(store) && Ready(store, w, d0) && SameElsewhere(d0, d, w.generation)
    ensures w.config.name.Elsewhere? && w.config.name in d.files && store.digest(d.files[w.config.name]) == w.config.sha
  {
    hide Faithful, C.Consistent;
    assert !OfGeneration(w.config.name, w.generation);
  }

  /** Renaming the marker is the one write that makes the generation valid. */
  lemma MarkerCommits(store: Store, w: Work, d: Disk)
    requires Faithful(store) && Prepared(store, w, d)
    ensures Validates(store, w.lineage, PublishStep(store, w, d, FENCE), w.generation)
  {
    hide Faithful, Prepared, Published, PublishStep, MarkerOf;
    var d' := PublishStep(store, w, d, FENCE);
    PreparedFiles(store, w, d);
    StepHas(store, w, d, FENCE);
    FenceStep(store, w, d);
    Connected(store, w, d');
  }

  lemma FenceStep(store: Store, w: Work, d: Disk)
    requires Faithful(store)
    ensures var d' := PublishStep(store, w, d, FENCE);
      && Marker(w.generation) in d'.files && d'.files[Marker(w.generation)] == MarkerOf(store, w)
      && d'.manifest == d.manifest && d'.catalog == d.catalog
      && (w.config.name.Elsewhere? && w.config.name in d.files ==> w.config.name in d'.files && d'.files[w.config.name] == d.files[w.config.name])
  {
    hide Faithful, MarkerOf, C.Registered;
  }

  /** Marker, node, provenance and files name each other with the right hashes. */
  lemma Connected(store: Store, w: Work, d: Disk)
    requires Faithful(store) && (forall kind: Kind :: Has(store, w, d, kind))
    requires Marker(w.generation) in d.files && d.files[Marker(w.generation)] == MarkerOf(store, w)
    requires d.manifest.lineage == w.lineage
    requires Final(Checkpoint, w.generation) in d.manifest.hashes && d.manifest.hashes[Final(Checkpoint, w.generation)] == CheckpointOf(store, w).sha
    requires var p := store.Path(Final(Checkpoint, w.generation)); p in d.catalog.entries && d.catalog.entries[p].sha == CheckpointOf(store, w).sha
    requires w.config.name in d.files && store.digest(d.files[w.config.name]) == w.config.sha
    ensures Validates(store, w.lineage, d, w.generation)
  {
    hide Faithful, MarkerOf, NodeOf, ProvenanceOf, CommitOf, CheckpointOf, FreshOf, Content, Published, Has;
    AllPresent(store, w, d);
    MarkerFacts(store, w);
    NodeFacts(store, w);
    ProvenanceFacts(store, w);
    RefFacts(store, w);
  }

  lemma AllPresent(store: Store, w: Work, d: Disk)
    requires forall kind: Kind :: Has(store, w, d, kind)
    ensures Final(Node, w.generation) in d.files && d.files[Final(Node, w.generation)] == NodeOf(store, w)
    ensures Final(Provenance, w.generation) in d.files && d.files[Final(Provenance, w.generation)] == ProvenanceOf(store, w)
    ensures forall k :: k in ARTIFACTS ==> Final(k, w.generation) in d.files && d.files[Final(k, w.generation)] == Content(w, k)
  {
    hide NodeOf, ProvenanceOf;
    assert Has(store, w, d, Node) && Has(store, w, d, Provenance);
    forall k | k in ARTIFACTS ensures Final(k, w.generation) in d.files && d.files[Final(k, w.generation)] == Content(w, k) {
      assert Has(store, w, d, k);
    }
  }

  lemma MarkerFacts(store: Store, w: Work)
    ensures var marker := MarkerOf(store, w);
      && marker.MarkerDoc? && marker.generation == w.generation && marker.lineage == w.lineage
      && (forall k :: k in ARTIFACTS ==> k in marker.hashes && marker.hashes[k] == store.digest(Content(w, k)))
    ensures Fresh in ARTIFACTS && Rolling in ARTIFACTS && Checkpoint in ARTIFACTS && Metadata in ARTIFACTS && Training in ARTIFACTS && Summary in ARTIFACTS
  {
    assert ARTIFACTS[0] == Fresh && ARTIFACTS[1] == Rolling && ARTIFACTS[2] == Checkpoint && ARTIFACTS[3] == Metadata && ARTIFACTS[4] == Training && ARTIFACTS[5] == Summary;
  }

  lemma NodeFacts(store: Store, w: Work)
    ensures var node := NodeOf(store, w);
      && node.NodeDoc? && node.checkpoint == CheckpointOf(store, w) && node.parent == w.parent && node.freshReplay == FreshOf(store, w)
      && node.config == w.config && node.provenance == Ref(Final(Provenance, w.generation), store.digest(ProvenanceOf(store, w)))
  {
  }

  lemma ProvenanceFacts(store: Store, w: Work)
    ensures var provenance := ProvenanceOf(store, w);
      && provenance.ProvenanceDoc? && provenance.checkpoint == CheckpointOf(store, w) && provenance.parent == w.parent
      && provenance.freshReplay == FreshOf(store, w) && provenance.config == w.config && provenance.reloadVerified
      && provenance.commit == Ref(Marker(w.generation), store.digest(MarkerOf(store, w)))
  {
  }

  lemma RefFacts(store: Store, w: Work)
    ensures CheckpointOf(store, w) == CheckpointRef(w.lineage, w.generation, Final(Checkpoint, w.generation), store.digest(Content(w, Checkpoint)))
    ensures FreshOf(store, w) == Ref(Final(Fresh, w.generation), store.digest(Content(w, Fresh)))
  {
  }

  lemma PreparedFiles(store: Store, w: Work, d: Disk)
    requires Faithful(store) && Prepared(store, w, d)
    ensures (forall kind: Kind :: Has(store, w, d, kind)) && d.manifest.lineage == w.lineage
    ensures Final(Checkpoint, w.generation) in d.manifest.hashes && d.manifest.hashes[Final(Checkpoint, w.generation)] == CheckpointOf(store, w).sha
    ensures var p := store.Path(Final(Checkpoint, w.generation)); p in d.catalog.entries && d.catalog.entries[p].sha == CheckpointOf(store, w).sha
    ensures w.config.name.Elsewhere? && w.config.name in d.files && store.digest(d.files[w.config.name]) == w.config.sha
  {
    hide CheckpointOf, Has;
  }

  /** The commit fence: at every prefix of the publication the generation validates exactly when the marker rename
      has happened. */
  lemma CommitFence(store: Store, w: Work, d0: Disk, k: nat)
    requires Faithful(store) && Ready(store, w, d0) && k <= FENCE + 1
    ensures Validates(store, w.lineage, Publish(store, w, d0, k), w.generation) <==> k == FENCE + 1
  {
    hide Faithful, Ready, Validates, OwnFiles, OwnEvidence, SameElsewhere, Prepared, PublishStep;
    PublishShape(store, w, d0, k);
    if k <= FENCE {
      NoMarkerNoCommit(store, w.lineage, Publish(store, w, d0, k), w.generation);
    } else {
      PreparedAtFence(store, w, d0);
      MarkerCommits(store, w, Publish(store, w, d0, FENCE));
    }
  }

  /** A publication that dies at any write, reconciled by a process that dies at any write and by a second one, can be
      published again: the retry, whatever it trained, validates, and so do all earlier generations. */
  lemma CrashReconcileRetry(store: Store, w: Work, retry: Work, d0: Disk, k: nat, j: nat, h: nat)
    requires Faithful(store) && Ready(store, w, d0) && k <= FENCE && j <= RECONCILED
    requires retry.generation == w.generation && Ready(store, retry, d0)
    ensures var r := Reconcile(store, w.lineage, ReconcileWrites(Publish(store, w, d0, k), w.generation, j), w.generation);
      && r.Removed?
      && Validates(store, w.lineage, Publish(store, retry, r.disk, FENCE + 1), w.generation)
      && (Validates(store, w.lineage, d0, h) ==>
            Validates(store, w.lineage, r.disk, h) && Validates(store, w.lineage, Publish(store, retry, r.disk, FENCE + 1), h))
  {
    hide Faithful, Ready, Validates, Reconcile, ReconcileWrites, Publish, OwnFiles, OwnEvidence, SameElsewhere;
    var d := Publish(store, w, d0, k);
    PublishShape(store, w, d0, k);
    InterruptedReconciliation(store, w, d0, d, j);
    RemovableReconciles(store, w, d0, d);
    var d1 := d0.(manifest := d0.manifest.(config := d.manifest.config));
    ReadyWithConfig(store, retry, d0, d1);
    ReadyLineage(store, w, d0);
    ReadyLineage(store, retry, d0);
    CommitFence(store, retry, d1, FENCE + 1);
    if Validates(store, w.lineage, d0, h) {
      ValidatesMonotone(store, w.lineage, d0, d1, h);
      EarlierStillValidate(store, retry, d1, FENCE + 1, h);
    }
  }

  // ----- refusals, removals and tampering, told without the functions above -----

  /** A request is refused, and the disk left alone, exactly for a generation without a marker when the lineage is
      another's, anything of a later generation is there, a graph file or the recorded marker is foreign, or the catalog
      has entries that are not bound to the generation. */
  lemma RefusedExactly(store: Store, lineage: string, d: Disk, g: nat)
    requires Faithful(store)
    ensures Reconcile(store, lineage, d, g) == Refused <==>
      && Marker(g) !in d.files
      && (|| d.manifest.lineage != lineage
          || (exists h :: h > g && Marker(h) in d.files)
          || (exists h :: h > g && Final(Checkpoint, h) in d.manifest.hashes)
          || (exists h :: h > g && h in d.manifest.commits)
          || (exists n :: n in {Final(Provenance, g), Final(Node, g)} && n in d.files &&
                !((d.files[n].ProvenanceDoc? || d.files[n].NodeDoc?) &&
                  d.files[n].checkpoint.(sha := "") == CheckpointRef(lineage, g, Final(Checkpoint, g), "")))
          || (g in d.manifest.commits && d.manifest.commits[g].name != Marker(g))
          || (g in d.catalog.generations && exists p :: p in d.catalog.generations[g].paths && forall k: Kind :: store.Path(Final(k, g)) != p)
          || (g !in d.catalog.generations && exists k: Kind :: store.Path(Final(k, g)) in d.catalog.entries))
  {
    hide Faithful;
    if !OwnedBy(d, Final(Provenance, g), lineage, g) {
      assert Final(Provenance, g) in {Final(Provenance, g), Final(Node, g)};
    }
    if !OwnedBy(d, Final(Node, g), lineage, g) {
      assert Final(Node, g) in {Final(Provenance, g), Final(Node, g)};
    }
  }

  /** A removal takes exactly the files of this generation, its checkpoint hash and commit entry, and from the catalog
      its record with the entries no other generation refers to. */
  lemma RemovedExactly(store: Store, lineage: string, d: Disk, g: nat)
    requires Faithful(store) && Reconcile(store, lineage, d, g).Removed?
    ensures var d' := Reconcile(store, lineage, d, g).disk;
      && (forall n :: n in d'.files <==> n in d.files && n != MarkerTemp(g) && !(n.Final? && n.generation == g) && !(n.Temp? && n.generation == g && n.kind in ARTIFACTS))
      && (forall n :: n in d'.files ==> d'.files[n] == d.files[n])
      && (forall n :: n in d'.manifest.hashes <==> n in d.manifest.hashes && n != Final(Checkpoint, g))
      && (forall n :: n in d'.manifest.hashes ==> d'.manifest.hashes[n] == d.manifest.hashes[n])
      && (forall h :: h in d'.manifest.commits <==> h in d.manifest.commits && h != g)
      && (forall h :: h in d'.manifest.commits ==> d'.manifest.commits[h] == d.manifest.commits[h])
      && d'.manifest.lineage == d.manifest.lineage && d'.manifest.config == d.manifest.config
      && (forall h :: h in d'.catalog.generations <==> h in d.catalog.generations && h != g)
      && (forall h :: h in d'.catalog.generations ==> d'.catalog.generations[h] == d.catalog.generations[h])
      && (forall p :: p in d'.catalog.entries <==>
            p in d.catalog.entries && (g in d.catalog.generations && p in d.catalog.generations[g].paths ==>
                                         exists h :: h != g && h in d.catalog.generations && p in d.catalog.generations[h].paths))
      && (forall p :: p in d'.catalog.entries ==> d'.catalog.entries[p] == d.catalog.entries[p])
  {
    hide Faithful, MayReconcile, ReconcileWrites, Leftovers, NamesOf, C.Discarded;
    LeftoverCount(g);
    ReconcileShape(d, g, RECONCILED);
    forall n ensures n in NamesOf(Leftovers(g), RECONCILED - 2) <==>
        n == MarkerTemp(g) || (n.Final? && n.generation == g) || (n.Temp? && n.generation == g && n.kind in ARTIFACTS)
    {
      LeftoversAre(g, n);
    }
    DiscardedIs(d.catalog, g);
  }

  lemma DiscardedIs(c: C.Content, g: nat)
    ensures var c' := C.Discarded(c, g);
      && (forall h :: h in c'.generations <==> h in c.generations && h != g)
      && (forall h :: h in c'.generations ==> c'.generations[h] == c.generations[h])
      && (forall p :: p in c'.entries <==>
            p in c.entries && (g in c.generations && p in c.generations[g].paths ==> exists h :: h != g && h in c.generations && p in c.generations[h].paths))
      && (forall p :: p in c'.entries ==> c'.entries[p] == c.entries[p])
  {
  }

  /** What a published marker is worth: with marker and graph files of a generation in place it validates exactly as
      long as each of the six artifacts and the configuration has the content published, by its hash, and manifest and
      catalog record the checkpoint's hash. */
  lemma ValidatesExactly(store: Store, w: Work, d: Disk)
    requires Faithful(store) && d.files.Keys >= {Marker(w.generation), Final(Provenance, w.generation), Final(Node, w.generation)}
    requires d.files[Marker(w.generation)] == MarkerOf(store, w)
    requires d.files[Final(Provenance, w.generation)] == ProvenanceOf(store, w) && d.files[Final(Node, w.generation)] == NodeOf(store, w)
    ensures var g, checkpoint := w.generation, store.digest(Blob(w.contents(Checkpoint)));
      Validates(store, w.lineage, d, g) <==>
        && (forall k :: k in ARTIFACTS ==> Final(k, g) in d.files && store.digest(d.files[Final(k, g)]) == store.digest(Blob(w.contents(k))))
        && w.config.name in d.files && store.digest(d.files[w.config.name]) == w.config.sha
        && d.manifest.lineage == w.lineage
        && Final(Checkpoint, g) in d.manifest.hashes && d.manifest.hashes[Final(Checkpoint, g)] == checkpoint
        && store.Path(Final(Checkpoint, g)) in d.catalog.entries && d.catalog.entries[store.Path(Final(Checkpoint, g))].sha == checkpoint
  {
    hide Faithful;
    assert forall k :: k in ARTIFACTS <==> k in {Fresh, Rolling, Checkpoint, Metadata, Training, Summary} by {
      assert ARTIFACTS[0] == Fresh && ARTIFACTS[1] == Rolling && ARTIFACTS[2] == Checkpoint && ARTIFACTS[3] == Metadata && ARTIFACTS[4] == Training && ARTIFACTS[5] == Summary;
    }
  }

  /** A graph or marker file that is not the one published breaks the chain: whoever validates has a marker whose
      hash the provenance names, a provenance whose hash the node names, and one checkpoint, parent, replay and
      configuration in both. */
  lemma ValidatedChain(store: Store, lineage: string, d: Disk, g: nat)
    requires Faithful(store) && Validates(store, lineage, d, g)
    ensures Marker(g) in d.files && Final(Node, g) in d.files && d.files[Marker(g)].MarkerDoc? && d.files[Final(Node, g)].NodeDoc?
    ensures var marker, node := d.files[Marker(g)], d.files[Final(Node, g)];
      && marker.generation == node.checkpoint.generation == g && marker.lineage == node.checkpoint.lineage == d.manifest.lineage == lineage
      && node.provenance.name in d.files && d.files[node.provenance.name].ProvenanceDoc? && store.digest(d.files[node.provenance.name]) == node.provenance.sha
      && d.files[node.provenance.name] == ProvenanceDoc(node.checkpoint, node.parent, node.freshReplay, node.config, Ref(Marker(g), store.digest(marker)), true)
      && node.checkpoint.name in d.files && store.digest(d.files[node.checkpoint.name]) == node.checkpoint.sha
      && Checkpoint in marker.hashes && marker.hashes[Checkpoint] == node.checkpoint.sha
      && node.freshReplay.name in d.files && store.digest(d.files[node.freshReplay.name]) == node.freshReplay.sha
      && Fresh in marker.hashes && marker.hashes[Fresh] == node.freshReplay.sha
      && (forall k :: k in {Rolling, Metadata, Training, Summary} ==>
            k in marker.hashes && Final(k, g) in d.files && store.digest(d.files[Final(k, g)]) == marker.hashes[k])
      && node.config.name in d.files && store.digest(d.files[node.config.name]) == node.config.sha
  {
    hide Faithful;
    var provenance := d.files[d.files[Final(Node, g)].provenance.name];
    assert provenance == ProvenanceDoc(provenance.checkpoint, provenance.parent, provenance.freshReplay, provenance.config, provenance.commit, provenance.reloadVerified);
  }

  // ----- what a completed publication leaves on disk, document by document -----

  /** The six artifacts as trained; a marker with their hashes; a node and a provenance that name the checkpoint, its
      parent, the fresh replay, the configuration and, one after the other, provenance and marker by their hashes. */
  ghost predicate GraphTells(store: Store, w: Work, files: map<Name, Doc>) {
    var g := w.generation;
    var checkpoint := CheckpointRef(w.lineage, g, Final(Checkpoint, g), store.digest(Blob(w.contents(Checkpoint))));
    var replay := Ref(Final(Fresh, g), store.digest(Blob(w.contents(Fresh))));
    && {Marker(g), Final(Provenance, g), Final(Node, g)} <= files.Keys
    && (forall k :: k in ARTIFACTS ==> Final(k, g) in files && files[Final(k, g)] == Blob(w.contents(k)))
    && files[Marker(g)] == MarkerDoc(g, w.lineage, map k | k in ARTIFACTS :: store.digest(Blob(w.contents(k))))
    && files[Final(Provenance, g)] == ProvenanceDoc(checkpoint, w.parent, replay, w.config, Ref(Marker(g), store.digest(files[Marker(g)])), true)
    && files[Final(Node, g)] == NodeDoc(checkpoint, w.parent, replay, w.config, Ref(Final(Provenance, g), store.digest(files[Final(Provenance, g)])))
  }

  /** The manifest gains the checkpoint's hash, the marker's reference and the configuration, and nothing else changes. */
  ghost predicate ManifestTells(store: Store, w: Work, m0: Manifest, d: Disk)
    requires Marker(w.generation) in d.files
  {
    d.manifest == Manifest(m0.lineage, m0.hashes[Final(Checkpoint, w.generation) := store.digest(Blob(w.contents(Checkpoint)))],
                           m0.commits[w.generation := Ref(Marker(w.generation), store.digest(d.files[Marker(w.generation)]))], Some(w.config))
  }

  function CatalogedPaths(store: Store, g: nat): set<C.Path>
    requires Faithful(store)
  {
    set k | k in CATALOGED :: store.Path(Final(k, g))
  }

  /** The catalog gains the generation with its eight files, each under the hash and size of the file on disk. */
  ghost predicate CatalogTells(store: Store, w: Work, c0: C.Content, d: Disk)
    requires Faithful(store)
  {
    var g := w.generation;
    && (forall p :: p in c0.entries ==> p in d.catalog.entries && d.catalog.entries[p] == c0.entries[p])
    && g in d.catalog.generations && d.catalog.generations == c0.generations[g := C.Record(g, CatalogedPaths(store, g), None)]
    && forall k: Kind :: store.Path(Final(k, g)) in d.catalog.entries && Final(k, g) in d.files &&
         d.catalog.entries[store.Path(Final(k, g))] == C.Identity(store.Path(Final(k, g)), store.digest(d.files[Final(k, g)]), store.size(d.files[Final(k, g)]), map[])
  }

  lemma PublishedExactly(store: Store, w: Work, d0: Disk)
    requires Faithful(store) && Ready(store, w, d0)
    ensures var d := Publish(store, w, d0, FENCE + 1);
      GraphTells(store, w, d.files) && ManifestTells(store, w, d0.manifest, d) && CatalogTells(store, w, d0.catalog, d)
  {
    hide Faithful, Ready, PublishStep, Publish, OwnFiles, OwnEvidence, SameElsewhere, GraphTells, ManifestTells, CatalogTells, Has, Renamed;
    var d := Publish(store, w, d0, FENCE + 1);
    RenamedSoFar(store, w, d0, FENCE + 1);
    AllPublished(store, w, d, FENCE + 1);
    LastStep(store, w, d0);
    FenceStep(store, w, Publish(store, w, d0, FENCE));
    GraphTold(store, w, d);
    ManifestTold(store, w, d0);
    CatalogTold(store, w, d0, d);
  }

  lemma LastStep(store: Store, w: Work, d0: Disk)
    requires Faithful(store)
    ensures Publish(store, w, d0, FENCE + 1) == PublishStep(store, w, Publish(store, w, d0, FENCE), FENCE)
  {
    hide PublishStep, Faithful;
  }

  lemma GraphTold(store: Store, w: Work, d: Disk)
    requires (forall kind: Kind :: Has(store, w, d, kind)) && Marker(w.generation) in d.files && d.files[Marker(w.generation)] == MarkerOf(store, w)
    ensures GraphTells(store, w, d.files)
  {
    assert Has(store, w, d, Provenance) && Has(store, w, d, Node);
    forall k | k in ARTIFACTS ensures Final(k, w.generation) in d.files && d.files[Final(k, w.generation)] == Blob(w.contents(k)) {
      assert Has(store, w, d, k);
      ArtifactsAre();
    }
  }

  lemma ArtifactsAre()
    ensures forall k :: k in ARTIFACTS <==> k != Provenance && k != Node
    ensures forall k :: k in CATALOGED
  {
    assert ARTIFACTS[0] == Fresh && ARTIFACTS[1] == Rolling && ARTIFACTS[2] == Checkpoint && ARTIFACTS[3] == Metadata && ARTIFACTS[4] == Training && ARTIFACTS[5] == Summary;
    assert CATALOGED[0] == Fresh && CATALOGED[1] == Rolling && CATALOGED[2] == Checkpoint && CATALOGED[3] == Metadata
           && CATALOGED[4] == Training && CATALOGED[5] == Summary && CATALOGED[6] == Provenance && CATALOGED[7] == Node;
  }

  lemma ManifestTold(store: Store, w: Work, d0: Disk)
    requires Faithful(store) && Ready(store, w, d0)
    requires var d := Publish(store, w, d0, FENCE + 1); Marker(w.generation) in d.files && d.files[Marker(w.generation)] == MarkerOf(store, w)
    ensures ManifestTells(store, w, d0.manifest, Publish(store, w, d0, FENCE + 1))
  {
    hide Faithful, Ready, C.Registered, FilesOf, ArtifactsOf, OwnEvidence, OwnFiles, SameElsewhere, MarkerOf, Publish;
    PublishShape(store, w, d0, 15);
    OneMore(store, w, d0, 15);
    OneMore(store, w, d0, 16);
    OneMore(store, w, d0, 17);
  }

  lemma OneMore(store: Store, w: Work, d0: Disk, k: nat)
    requires Faithful(store)
    ensures Publish(store, w, d0, k + 1) == PublishStep(store, w, Publish(store, w, d0, k), k)
  {
    hide PublishStep, Faithful;
  }

  lemma CatalogTold(store: Store, w: Work, d0: Disk, d': Disk)
    requires Faithful(store) && Ready(store, w, d0) && d' == Publish(store, w, d0, FENCE + 1) && forall kind: Kind :: Has(store, w, d', kind)
    ensures CatalogTells(store, w, d0.catalog, d')
  {
    hide Faithful, Ready, C.Registered, FilesOf, ArtifactsOf, OwnEvidence, OwnFiles, SameElsewhere, MarkerOf, Publish, PublishStep, Has, CatalogTells;
    var d := Publish(store, w, d0, FENCE - 1);
    RenamedSoFar(store, w, d0, FENCE - 1);
    AllPublished(store, w, d, FENCE - 1);
    PublishShape(store, w, d0, FENCE - 1);
    RegistrationGoesThrough(store, w, d0, d);
    LastPrepared(store, w, d0);
    LastStep(store, w, d0);
    FenceStep(store, w, Publish(store, w, d0, FENCE));
    C.RegistrationExactly(FilesOf(store, d.files), d0.catalog, w.generation, ArtifactsOf(store, w), None);
    CatalogRead(store, w, d0.catalog, d', FilesOf(store, d.files));
  }

  lemma ArtifactAt(store: Store, w: Work, k: Kind) returns (i: nat)
    ensures i < |ArtifactsOf(store, w)| && CATALOGED[i] == k && ArtifactsOf(store, w)[i] == ArtifactOf(store, w, k)
  {
    ArtifactsAre();
    assert k in CATALOGED;
    i :| i < |CATALOGED| && CATALOGED[i] == k;
  }

  /** The paths named by the artifact list are those of the eight files. */
  lemma NamedPaths(store: Store, w: Work, p: C.Path)
    requires Faithful(store)
    ensures (exists i :: 0 <= i < |ArtifactsOf(store, w)| && C.Names(ArtifactsOf(store, w)[i], p)) <==> p in CatalogedPaths(store, w.generation)
  {
    hide Published, C.SafeRelative;
    var artifacts := ArtifactsOf(store, w);
    if i :| 0 <= i < |artifacts| && C.Names(artifacts[i], p) {
      assert CATALOGED[i] in CATALOGED;
    }
    if p in CatalogedPaths(store, w.generation) {
      var k: Kind :| k in CATALOGED && store.Path(Final(k, w.generation)) == p;
      var i := ArtifactAt(store, w, k);
      assert C.Names(artifacts[i], p);
    }
  }

  lemma CatalogRead(store: Store, w: Work, c0: C.Content, d: Disk, files: map<C.Path, C.File>)
    requires Faithful(store) && C.Registered(files, c0, w.generation, ArtifactsOf(store, w), None) == C.Ok(d.catalog) && forall kind: Kind :: Has(store, w, d, kind)
    ensures CatalogTells(store, w, c0, d)
  {
    hide C.Registered, Published, ArtifactsOf, CatalogedPaths, C.SafeRelative, C.Names;
    var g := w.generation;
    C.RegistrationExactly(files, c0, g, ArtifactsOf(store, w), None);
    forall p ensures p in d.catalog.generations[g].paths <==> p in CatalogedPaths(store, g) {
      NamedPaths(store, w, p);
    }
    assert d.catalog.generations[g].paths == CatalogedPaths(store, g);
    forall k: Kind ensures store.Path(Final(k, g)) in d.catalog.entries && Final(k, g) in d.files &&
      d.catalog.entries[store.Path(Final(k, g))] == C.Identity(store.Path(Final(k, g)), store.digest(d.files[Final(k, g)]), store.size(d.files[Final(k, g)]), map[])
    {
      var i := ArtifactAt(store, w, k);
      assert Has(store, w, d, k);
    }
  }
}
