/** The durable generation commit: journal, catalog, runtime state and manifest, and the recovery that reconciles them. */
module GenerationCommit {
  import opened Options
  import C = ArtifactCatalog

  type Path = C.Path

  // ----- what is on disk -----

  datatype Status = Running | Failed | Committed

  datatype Tx = Tx(status: Status, restarts: nat, schema: string, profile: string, hashes: map<Path, string>)

  datatype RunStatus = Created | Active | SoftStopped | Completed | RecoveryRequired

  datatype Runtime = Runtime(status: RunStatus, origin: nat, last: nat)

  /** The fingerprint of a catalog stands for its content: it is recorded as the content itself. */
  datatype Manifest = Manifest(last: nat, fingerprint: C.Content, checkpoints: map<Path, string>, arenas: set<nat>)

  /** What a driver publishes; completed sums up its schema, identity, proof, game-count and required-metric fields,
      healthy what the performance and learning checks after the commit make of its metrics. */
  datatype DriverResult = DriverResult(completed: bool, healthy: bool, artifacts: seq<C.Artifact>)

  datatype Disk = Disk(
    journal: map<nat, Tx>, catalog: C.Content, runtime: Runtime, manifest: Manifest,
    results: map<nat, DriverResult>, files: map<Path, C.File>)

  datatype Spec = Spec(schema: string, profile: string, digest: Tx -> string, size: Tx -> nat, maxRestarts: nat, arenaEvery: nat)

  // ----- transaction file names and the glob that finds them -----

  const DIGITS := "0123456789"

  function Decimal(n: nat): string {
    if n < 10 then [DIGITS[n]] else Decimal(n / 10) + [DIGITS[n % 10]]
  }

  function Padded(s: string, width: nat): (r: string)
    ensures |r| == if |s| < width then width else |s|
    decreases width - |s|
  {
    if |s| < width then Padded("0" + s, width) else s
  }

  function TxName(g: nat): string {
    "generation-" + Padded(Decimal(g), 4) + ".json"
  }

  /** generation-????.json: exactly four characters between the prefix and the suffix. */
  predicate MatchesGlob(name: string) {
    |name| == 11 + 4 + 5 && "generation-" == name[..11] && ".json" == name[|name| - 5..]
  }

  lemma {:induction false} DecimalLength(n: nat)
    ensures |Decimal(n)| >= 1
    ensures |Decimal(n)| == 1 <==> n < 10
    ensures |Decimal(n)| <= 2 <==> n < 100
    ensures |Decimal(n)| <= 3 <==> n < 1000
    ensures |Decimal(n)| <= 4 <==> n < 10000
  {
    if n >= 10 {
      DecimalLength(n / 10);
    }
  }

  /** The glob sees the transactions of generations up to 9999 and no others. */
  lemma GlobSees(g: nat)
    ensures MatchesGlob(TxName(g)) <==> g <= 9999
  {
    hide Decimal, Padded;
    DecimalLength(g);
    var digits := Padded(Decimal(g), 4);
    var name := TxName(g);
    assert name[..11] == "generation-";
    assert name[|name| - 5..] == ".json";
  }

  function TxRecord(spec: Spec, g: nat, tx: Tx): C.Transaction {
    C.Transaction(["generations", TxName(g)], spec.digest(tx), spec.size(tx), true)
  }

  // ----- validating a driver result -----

  /** An artifact that names a file of the lineage; hash and size are compared only where they are declared. */
  predicate Sound(files: map<Path, C.File>, a: C.Artifact) {
    && a.Artifact? && C.SafeRelative(a.path).Some?
    && var path := C.SafeRelative(a.path).value;
       && path in files
       && (a.size.Some? ==> a.size.value == files[path].size)
       && (a.sha.Some? ==> a.sha.value == files[path].digest)
  }

  predicate Validates(files: map<Path, C.File>, r: DriverResult) {
    r.completed && r.artifacts != [] && forall i :: 0 <= i < |r.artifacts| ==> Sound(files, r.artifacts[i])
  }

  /** The files a result names. */
  function Named(artifacts: seq<C.Artifact>): set<Path> {
    set a | a in artifacts && a.Artifact? && C.SafeRelative(a.path).Some? :: C.SafeRelative(a.path).value
  }

  function HashesOf(files: map<Path, C.File>, r: DriverResult): map<Path, C.Digest> {
    map p | p in Named(r.artifacts) && p in files :: files[p].digest
  }

  predicate IsCheckpoint(p: Path) { p != [] && p[0] == "checkpoints" }

  function CheckpointsIn(hashes: map<Path, string>): map<Path, string> {
    map p | p in hashes && IsCheckpoint(p) :: hashes[p]
  }

  // ----- the four writes of the commit tail -----

  function CommittedTx(spec: Spec, restarts: nat, hashes: map<Path, string>): Tx {
    Tx(Committed, restarts, spec.schema, spec.profile, hashes)
  }

  function RegisterIn(spec: Spec, d: Disk, content: C.Content, g: nat): C.Result<C.Content>
    requires g in d.journal && g in d.results
  {
    C.Registered(d.files, content, g, d.results[g].artifacts, Some(TxRecord(spec, g, d.journal[g])))
  }

  function WriteTx(d: Disk, g: nat, tx: Tx): Disk { d.(journal := d.journal[g := tx]) }

  function WriteCatalog(d: Disk, content: C.Content): Disk { d.(catalog := content) }

  function WriteRuntime(d: Disk, runtime: Runtime): Disk { d.(runtime := runtime) }

  function WriteManifest(d: Disk, manifest: Manifest): Disk { d.(manifest := manifest) }

  /** The manifest after generation g: its number, the catalog's fingerprint and the checkpoint hashes. */
  function CommitManifest(d: Disk, g: nat, hashes: map<Path, string>): Manifest {
    d.manifest.(last := g, fingerprint := d.catalog, checkpoints := d.manifest.checkpoints + CheckpointsIn(hashes))
  }

  /** The disk after the first k writes of the tail; a refused registration ends the tail after the first. */
  ghost function Tail(spec: Spec, d: Disk, g: nat, k: nat): Disk
    requires g in d.journal && g in d.results
  {
    var hashes := HashesOf(d.files, d.results[g]);
    var journaled := WriteTx(d, g, CommittedTx(spec, d.journal[g].restarts, hashes));
    if k == 0 then d
    else
      match RegisterIn(spec, journaled, d.catalog, g)
      case Failed(_) => journaled
      case Ok(content) =>
        if k == 1 then journaled
        else
          var cataloged := WriteCatalog(journaled, content);
          if k == 2 then cataloged
          else
            var stated := WriteRuntime(cataloged, d.runtime.(last := g));
            if k == 3 then stated else WriteManifest(stated, CommitManifest(stated, g, hashes))
  }

  // ----- recovery -----

  datatype Refusal = BadTransaction | Unjournaled | ResultDrift | CatalogRefused(why: C.Failure) | CatalogDrift | JournalGap | StateAhead

  datatype Recovered =
    | Nothing
    | Refused(written: seq<C.Content>, refusal: Refusal)
    | Finish(catalogs: seq<C.Content>, runtime: Runtime, manifest: Manifest)

  /** Committed transactions beyond the manifest that the glob finds, in order. */
  function PendingFrom(d: Disk, g: nat): (pending: seq<nat>)
    ensures forall p :: p in pending ==> p in d.journal && d.journal[p].status == Committed
    decreases 10000 - g
  {
    if g > 9999 then []
    else (if g in d.journal && d.journal[g].status == Committed then [g] else []) + PendingFrom(d, g + 1)
  }

  function Pending(d: Disk): (pending: seq<nat>)
    ensures forall p :: p in pending ==> p in d.journal && d.journal[p].status == Committed
  {
    PendingFrom(d, d.manifest.last + 1)
  }

  predicate TransactionOk(spec: Spec, tx: Tx) {
    tx.schema == spec.schema && tx.profile == spec.profile && tx.hashes != map[] && forall p :: p in tx.hashes ==> C.IsDigest(tx.hashes[p])
  }

  /** The catalog's record of a generation is the journal's, and the files are the ones recorded. */
  predicate RecordAgrees(spec: Spec, d: Disk, content: C.Content, g: nat)
    requires g in d.journal
  {
    && g in content.generations
    && content.generations[g] == C.Record(g, d.journal[g].hashes.Keys, Some(TxRecord(spec, g, d.journal[g])))
    && forall p :: p in d.journal[g].hashes ==>
         && p in content.entries && content.entries[p].sha == d.journal[g].hashes[p]
         && p in d.files && d.files[p].size == content.entries[p].size && d.files[p].digest == content.entries[p].sha
  }

  datatype Reconciled = Reconciled(catalogs: seq<C.Content>, content: C.Content) | Unreconciled(written: seq<C.Content>, refusal: Refusal)

  /** Each pending generation is found in the catalog or registered from its result, then compared. */
  ghost function Reconcile(spec: Spec, d: Disk, content: C.Content, pending: seq<nat>): Reconciled
    requires forall g :: g in pending ==> g in d.journal
    decreases |pending|
  {
    if pending == [] then Reconciled([], content)
    else
      var g := pending[0];
      if g in content.generations then
        if RecordAgrees(spec, d, content, g) then Reconcile(spec, d, content, pending[1..]) else Unreconciled([], CatalogDrift)
      else if !(g in d.results && Validates(d.files, d.results[g]) && HashesOf(d.files, d.results[g]) == d.journal[g].hashes) then
        Unreconciled([], ResultDrift)
      else
        match RegisterIn(spec, d, content, g)
        case Failed(why) => Unreconciled([], CatalogRefused(why))
        case Ok(registered) =>
          if !RecordAgrees(spec, d, registered, g) then Unreconciled([registered], CatalogDrift)
          else
            match Reconcile(spec, d, registered, pending[1..])
            case Unreconciled(written, refusal) => Unreconciled([registered] + written, refusal)
            case Reconciled(more, final) => Reconciled([registered] + more, final)
  }

  function CheckpointsOf(d: Disk, pending: seq<nat>): map<Path, string>
    requires forall g :: g in pending ==> g in d.journal
    decreases |pending|
  {
    if pending == [] then map[] else CheckpointsIn(d.journal[pending[0]].hashes) + CheckpointsOf(d, pending[1..])
  }

  predicate Consecutive(pending: seq<nat>, after: nat) {
    forall i :: 0 <= i < |pending| ==> pending[i] == after + 1 + i
  }

  predicate AllJournaled(d: Disk, pending: seq<nat>) {
    forall g :: g in d.catalog.generations && g > d.manifest.last ==> g in pending
  }

  ghost function Recovery(spec: Spec, d: Disk): Recovered {
    var pending := Pending(d);
    if exists g :: g in pending && !TransactionOk(spec, d.journal[g]) then Refused([], BadTransaction)
    else if !AllJournaled(d, pending) then Refused([], Unjournaled)
    else
      match Reconcile(spec, d, d.catalog, pending)
      case Unreconciled(written, refusal) => Refused(written, refusal)
      case Reconciled(catalogs, content) =>
        if pending == [] then Nothing
        else if !Consecutive(pending, d.manifest.last) then Refused(catalogs, JournalGap)
        else
          var latest := pending[|pending| - 1];
          if d.runtime.last > latest then Refused(catalogs, StateAhead)
          else Finish(catalogs, d.runtime.(status := RecoveryRequired, last := latest),
                      d.manifest.(last := latest, fingerprint := content, checkpoints := d.manifest.checkpoints + CheckpointsOf(d, pending)))
  }

  /** Writes of a recovery, one per registration, then the state, then the manifest. */
  function WriteCount(r: Recovered): nat {
    match r case Nothing => 0 case Refused(written, _) => |written| case Finish(catalogs, _, _) => |catalogs| + 2
  }

  function Cataloging(d: Disk, catalogs: seq<C.Content>): Disk {
    if catalogs == [] then d else WriteCatalog(d, catalogs[|catalogs| - 1])
  }

  /** The disk after the first k writes of a recovery. */
  function AfterWrites(d: Disk, r: Recovered, k: nat): Disk
    requires r.Finish? && k <= WriteCount(r)
  {
    if k == 0 then d
    else if k <= |r.catalogs| then WriteCatalog(d, r.catalogs[k - 1])
    else
      var stated := WriteRuntime(Cataloging(d, r.catalogs), r.runtime);
      if k == |r.catalogs| + 1 then stated else WriteManifest(stated, r.manifest)
  }

  function AfterRecovery(d: Disk, r: Recovered): Disk {
    match r
    case Nothing => d
    case Refused(written, _) => Cataloging(d, written)
    case Finish(_, _, _) => AfterWrites(d, r, WriteCount(r))
  }

  // ----- the invariant of the lineage -----

  /** The last generation whose transaction is committed. */
  function Latest(d: Disk): nat {
    var next := d.manifest.last + 1;
    if next in d.journal && d.journal[next].status == Committed then next else d.manifest.last
  }

  ghost predicate JournalInv(spec: Spec, d: Disk) {
    && (forall g :: g in d.journal && d.journal[g].status == Committed ==> d.runtime.origin < g <= d.manifest.last + 1)
    && (forall g :: d.runtime.origin < g <= d.manifest.last ==> g in d.journal && d.journal[g].status == Committed)
    && (forall g :: g in d.journal && d.journal[g].status == Committed ==> TransactionOk(spec, d.journal[g]))
    && (forall g :: g in d.journal ==> d.journal[g].restarts <= spec.maxRestarts)
  }

  /** The committed generations up to the manifest's are recorded as the journal has them. */
  ghost predicate SettledInv(spec: Spec, d: Disk) {
    && (forall g :: g in d.manifest.fingerprint.generations <==> d.runtime.origin < g <= d.manifest.last)
    && (forall g :: d.runtime.origin < g <= d.manifest.last && g in d.journal ==>
          RecordAgrees(spec, d, d.manifest.fingerprint, g) && CheckpointsKept(d, g))
    && C.Consistent(d.manifest.fingerprint)
    && d.runtime.origin <= d.manifest.last
  }

  ghost predicate CheckpointsKept(d: Disk, g: nat)
    requires g in d.journal
  {
    forall p :: p in d.journal[g].hashes && IsCheckpoint(p) ==> p in d.manifest.checkpoints && d.manifest.checkpoints[p] == d.journal[g].hashes[p]
  }

  /** At most one generation is under way, and what is already written of it is what the tail writes. */
  ghost predicate UnderWay(spec: Spec, d: Disk) {
    var next := d.manifest.last + 1;
    if Latest(d) == d.manifest.last then d.catalog == d.manifest.fingerprint && d.runtime.last == d.manifest.last
    else
      && next in d.results && Validates(d.files, d.results[next]) && d.journal[next].hashes == HashesOf(d.files, d.results[next])
      && (d.runtime.last == d.manifest.last || d.runtime.last == next)
      && (d.catalog == d.manifest.fingerprint || RegisterIn(spec, d, d.manifest.fingerprint, next) == C.Ok(d.catalog))
      && (d.runtime.last == next ==> RegisterIn(spec, d, d.manifest.fingerprint, next) == C.Ok(d.catalog))
  }

  ghost predicate Inv(spec: Spec, d: Disk) {
    JournalInv(spec, d) && SettledInv(spec, d) && UnderWay(spec, d)
  }

  /** Journal, catalog, runtime state and manifest name the same last committed generation and the same artifacts. */
  ghost predicate Agreed(spec: Spec, d: Disk) {
    Inv(spec, d) && Latest(d) == d.manifest.last
  }

  /** Both fields the catalog needs are there. */
  predicate Declares(a: C.Artifact) { a.Artifact? && a.sha.Some? && a.size.Some? }

  predicate SamePath(a: C.Artifact, b: C.Artifact) {
    a.Artifact? && b.Artifact? && C.SafeRelative(a.path).Some? && C.SafeRelative(a.path) == C.SafeRelative(b.path)
  }

  /** Declared like this in the catalog already, or not there. */
  predicate AsRecorded(entries: map<Path, C.Identity>, a: C.Artifact)
    requires Declares(a)
  {
    var path := C.SafeRelative(a.path);
    path.Some? && path.value in entries ==> entries[path.value] == C.Identity(path.value, a.sha.value, a.size.value, a.extra)
  }

  /** Every artifact declares its hash and size, and no path gets two identities, in the result or in the catalog. */
  predicate Declared(entries: map<Path, C.Identity>, artifacts: seq<C.Artifact>) {
    && (forall i :: 0 <= i < |artifacts| ==> Declares(artifacts[i]) && AsRecorded(entries, artifacts[i]))
    && (forall i, j :: 0 <= i < j < |artifacts| && SamePath(artifacts[i], artifacts[j]) ==>
          artifacts[i].(path := "") == artifacts[j].(path := ""))
  }

  /** The generation under way can enter the catalog. */
  predicate Publishable(d: Disk) {
    Latest(d) in d.results && Declared(d.manifest.fingerprint.entries, d.results[Latest(d)].artifacts)
  }
}
