/** A lineage that meets everything the publication of a generation is proved from: plain file names and a first
    generation that dies once and is published. */
module FirstGeneration {
  import opened Options
  import C = ArtifactCatalog
  import opened CommitFence
  import opened LineageHistory

  function KindTag(k: Kind): char {
    match k
    case Fresh => 'a' case Rolling => 'b' case Checkpoint => 'c' case Metadata => 'd'
    case Training => 'e' case Summary => 'f' case Provenance => 'g' case Node => 'h'
  }

  function TempTag(k: Kind): char {
    match k
    case Fresh => 'i' case Rolling => 'j' case Checkpoint => 'k' case Metadata => 'l'
    case Training => 'm' case Summary => 'n' case Provenance => 'o' case Node => 'p'
  }

  function Tag(n: Name): char {
    match n
    case Final(k, _) => KindTag(k)
    case Temp(k, _) => TempTag(k)
    case Marker(_) => 'q'
    case MarkerTemp(_) => 'r'
    case Elsewhere(_) => 's'
  }

  function Number(n: Name): nat {
    match n case Final(_, g) => g case Temp(_, g) => g case Marker(g) => g case MarkerTemp(g) => g case Elsewhere(id) => id
  }

  function PlainName(n: Name): string { [Tag(n)] + seq(Number(n), _ => 'x') }

  lemma PlainNamesDiffer(n: Name, n': Name)
    requires PlainName(n) == PlainName(n')
    ensures n == n'
  {
    assert Tag(n) == PlainName(n)[0] == PlainName(n')[0] == Tag(n');
    assert Number(n) == |PlainName(n)| - 1 == |PlainName(n')| - 1 == Number(n');
  }

  lemma {:induction false} OnePart(raw: string, current: string)
    requires '/' !in raw
    ensures C.PartsFrom(raw, current) == C.Part(current + raw)
  {
    if raw == [] {
      assert current + raw == current;
    } else {
      OnePart(raw[1..], current + [raw[0]]);
      assert (current + [raw[0]]) + raw[1..] == current + raw;
    }
  }

  lemma PlainIsSafe(n: Name)
    ensures C.SafeRelative(PlainName(n)) == Some([PlainName(n)])
  {
    var s := PlainName(n);
    OnePart(s, "");
    assert "" + s == s;
    assert s[0] != '.' && s[0] != '/';
  }

  function SomeDigest(): C.Digest { C.SHA_PREFIX + seq(64, _ => '0') }

  function PlainStore(): Store { Store(PlainName, (x: Doc) => SomeDigest(), (x: Doc) => 0) }

  lemma PlainIsFaithful()
    ensures Faithful(PlainStore())
  {
    var store := PlainStore();
    forall n ensures C.SafeRelative(store.raw(n)).Some? && store.Path(n) == [PlainName(n)] {
      PlainIsSafe(n);
    }
    forall n, n' | store.Path(n) == store.Path(n') ensures n == n' {
      PlainNamesDiffer(n, n');
    }
  }

  /** A fresh lineage has a history: its first generation, interrupted before the catalog write, then published. */
  lemma FreshHistory() returns (attempts: seq<Attempt>, disks: seq<Disk>)
    ensures Faithful(PlainStore()) && |attempts| == 2 && IsHistory(PlainStore(), "lineage", attempts, disks, [1, 1, 2])
  {
    hide Publish, PlainName, NoneFrom, After, Faithful;
    PlainIsFaithful();
    var store := PlainStore();
    var w, d := FirstWork();
    var died, done := Attempt(w, 16, false, 3), Attempt(w, FENCE + 1, false, 0);
    AttemptKeeps(store, "lineage", d, 1, 1, died);
    FitsAgain(store, d, died, done);
    attempts := [died, done];
    var d1 := After(store, d, died);
    disks := [d, d1, After(store, d1, done)];
  }

  lemma FirstWork() returns (w: Work, d: Disk)
    ensures Faithful(PlainStore()) && NoneFrom(PlainStore(), "lineage", d, 1)
    ensures forall k: nat, j: nat, handled: bool :: k <= FENCE + 1 && j <= RECONCILED ==> Fits(PlainStore(), "lineage", d, 1, Attempt(w, k, handled, j))
  {
    PlainIsFaithful();
    w := Work("lineage", 1, CheckpointRef("lineage", 0, Elsewhere(1), SomeDigest()), Ref(Elsewhere(0), SomeDigest()), (k: Kind) => "");
    d := Disk(map[Elsewhere(0) := Blob("")], Manifest("lineage", map[], map[], None), C.Content(map[], map[]));
  }

  lemma FitsAgain(store: Store, d: Disk, died: Attempt, again: Attempt)
    requires Faithful(store) && NoneFrom(store, "lineage", d, 1) && Fits(store, "lineage", d, 1, died) && Fits(store, "lineage", d, 1, again)
    requires died.writes <= FENCE
    ensures Fits(store, "lineage", After(store, d, died), 1, again)
  {
    hide Faithful, NoneFrom, After, Ready;
    NoneFromIsReady(store, "lineage", d, 1, died);
    UnfinishedReturns(store, d, died);
  }
}
