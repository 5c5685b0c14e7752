/** The catalog of immutable artifacts: reference discipline of registration and discarding. */
module ArtifactCatalog {
  import opened Options

  // ----- paths -----

  /** A safe relative path by its parts. */
  type Path = seq<string>

  /** Split at slashes; empty and "." parts vanish, as in a path object. */
  function Parts(raw: string): (parts: Path)
    ensures "" !in parts && "." !in parts
  {
    PartsFrom(raw, "")
  }

  function PartsFrom(raw: string, current: string): (parts: Path)
    ensures "" !in parts && "." !in parts
  {
    if raw == [] then Part(current)
    else if raw[0] == '/' then Part(current) + PartsFrom(raw[1..], "")
    else PartsFrom(raw[1..], current + [raw[0]])
  }

  function Part(part: string): (parts: Path)
    ensures "" !in parts && "." !in parts
  {
    if part == "" || part == "." then [] else [part]
  }

  /** Absolute paths, paths without parts and paths with ".." are refused. */
  function SafeRelative(raw: string): Option<Path> {
    var parts := Parts(raw);
    if (raw != [] && raw[0] == '/') || parts == [] || ".." in parts then None else Some(parts)
  }

  // ----- paths, told by their segments -----

  function Joined(segments: seq<string>): string
    requires segments != []
  {
    if |segments| == 1 then segments[0] else segments[0] + "/" + Joined(segments[1..])
  }

  predicate Plain(segments: seq<string>) {
    segments != [] && forall i :: 0 <= i < |segments| ==> '/' !in segments[i]
  }

  /** Every string is segments between slashes. */
  lemma {:induction false} Segments(raw: string) returns (segments: seq<string>)
    ensures Plain(segments) && Joined(segments) == raw
  {
    if raw == [] {
      segments := [""];
    } else {
      var rest := Segments(raw[1..]);
      assert raw == [raw[0]] + raw[1..];
      if raw[0] == '/' {
        segments := [""] + rest;
        assert segments[1..] == rest;
      } else {
        segments := [[raw[0]] + rest[0]] + rest[1..];
        if |rest| > 1 {
          assert segments[1..] == rest[1..];
          assert ([raw[0]] + rest[0]) + "/" + Joined(rest[1..]) == [raw[0]] + (rest[0] + "/" + Joined(rest[1..]));
        }
      }
    }
  }

  /** The segments that count. */
  function Kept(segments: seq<string>): seq<string> {
    if segments == [] then []
    else (if segments[0] in {"", "."} then [] else [segments[0]]) + Kept(segments[1..])
  }

  lemma {:induction false} PartsWalk(current: string, segment: string, rest: string)
    requires '/' !in segment
    ensures PartsFrom(segment + rest, current) == PartsFrom(rest, current + segment)
    decreases |segment|
  {
    if segment == [] {
      assert segment + rest == rest && current + segment == current;
    } else {
      var all := segment + rest;
      assert all[0] == segment[0] && all[1..] == segment[1..] + rest;
      PartsWalk(current + [segment[0]], segment[1..], rest);
      assert current + segment == (current + [segment[0]]) + segment[1..];
    }
  }

  lemma {:induction false} PartsJoined(segments: seq<string>)
    requires Plain(segments)
    ensures Parts(Joined(segments)) == Kept(segments)
  {
    if |segments| == 1 {
      PartsWalk("", segments[0], "");
      assert segments[0] + "" == segments[0] && "" + segments[0] == segments[0];
      assert Kept(segments[1..]) == [];
    } else {
      var rest := "/" + Joined(segments[1..]);
      PartsWalk("", segments[0], rest);
      assert Joined(segments) == segments[0] + rest && "" + segments[0] == segments[0];
      assert rest[1..] == Joined(segments[1..]);
      PartsJoined(segments[1..]);
    }
  }

  lemma {:induction false} KeptIs(segments: seq<string>)
    ensures forall s :: s in Kept(segments) <==> s in segments && s != "" && s != "."
  {
    if segments != [] {
      KeptIs(segments[1..]);
      assert segments == [segments[0]] + segments[1..];
    }
  }

  /** A path is refused exactly when it starts with a slash, has ".." for a segment, or has none that counts; else it
      is its segments without the empty ones and the dots. */
  lemma PathExactly(segments: seq<string>)
    requires Plain(segments)
    ensures SafeRelative(Joined(segments)) ==
            if (|segments| > 1 && segments[0] == "") || ".." in segments || (forall s :: s in segments ==> s in {"", "."}) then None
            else Some(Kept(segments))
  {
    hide Parts;
    PartsJoined(segments);
    KeptIs(segments);
    assert segments[0] in segments;
    if Kept(segments) != [] {
      assert Kept(segments)[0] in Kept(segments);
    }
  }

  // ----- catalog content -----

  datatype Transaction = Transaction(path: Path, digest: string, size: int, committed: bool)

  const SHA_PREFIX := "sha256:"

  predicate IsDigest(s: string) { SHA_PREFIX <= s && |s| == |SHA_PREFIX| + 64 }

  /** What hashing a file gives. */
  type Digest = s: string | IsDigest(s) witness SHA_PREFIX + seq(64, _ => '0')

  /** An entry of a driver result: possibly not an object, possibly without hash or size, with whatever further fields
      it carries. */
  datatype Artifact = NotAnObject | Artifact(path: string, sha: Option<string>, size: Option<int>, extra: map<string, string>)

  datatype Identity = Identity(path: Path, sha: string, size: int, extra: map<string, string>)

  datatype Record = Record(generation: nat, paths: set<Path>, transaction: Option<Transaction>)

  datatype Content = Content(entries: map<Path, Identity>, generations: map<nat, Record>)

  datatype File = File(size: nat, digest: Digest)

  datatype Failure = MalformedEntry | UnsafePath | MalformedSha | MalformedSize | MissingFile | SizeChanged
                   | IdentityChanged | RecordChanged | NotCommitted | HashMismatch

  datatype Result<+T> = Ok(value: T) | Failed(why: Failure)

  /** The entries are exactly the paths the generations reference. */
  ghost predicate Consistent(c: Content) {
    && (forall p :: p in c.entries <==> Referenced(c.generations, p))
    && (forall g :: g in c.generations ==> c.generations[g].generation == g)
    && (forall p :: p in c.entries ==> c.entries[p].path == p && SHA_PREFIX <= c.entries[p].sha && c.entries[p].size >= 0)
  }

  ghost predicate Referenced(generations: map<nat, Record>, p: Path) {
    exists g :: g in generations && p in generations[g].paths
  }

  /** The checks made on one artifact before it is compared with the catalog. An absent hash is read as empty, an absent
      size as -1. */
  function Checked(files: map<Path, File>, a: Artifact): Result<Identity> {
    if a.NotAnObject? then Failed(MalformedEntry)
    else if SafeRelative(a.path).None? then Failed(UnsafePath)
    else
      var path := SafeRelative(a.path).value;
      var sha := if a.sha.Some? then a.sha.value else "";
      var size := if a.size.Some? then a.size.value else -1;
      if !IsDigest(sha) then Failed(MalformedSha)
      else if size < 0 then Failed(MalformedSize)
      else if path !in files then Failed(MissingFile)
      else if files[path].size != size then Failed(SizeChanged)
      else Ok(Identity(path, sha, size, a.extra))
  }

  /** One artifact joins the entries, unless the path is taken by another identity. */
  function Enter(files: map<Path, File>, entries: map<Path, Identity>, a: Artifact): Result<map<Path, Identity>> {
    match Checked(files, a)
    case Failed(why) => Failed(why)
    case Ok(identity) =>
      if identity.path in entries && entries[identity.path] != identity then Failed(IdentityChanged)
      else Ok(entries[identity.path := identity])
  }

  function EnterAll(files: map<Path, File>, entries: map<Path, Identity>, artifacts: seq<Artifact>): Result<map<Path, Identity>> {
    if artifacts == [] then Ok(entries)
    else
      match EnterAll(files, entries, artifacts[..|artifacts| - 1])
      case Failed(why) => Failed(why)
      case Ok(before) => Enter(files, before, artifacts[|artifacts| - 1])
  }

  function PathsOf(files: map<Path, File>, artifacts: seq<Artifact>): set<Path> {
    set a | a in artifacts && Checked(files, a).Ok? :: Checked(files, a).value.path
  }

  function Registered(files: map<Path, File>, c: Content, generation: nat, artifacts: seq<Artifact>, t: Option<Transaction>): Result<Content> {
    match EnterAll(files, c.entries, artifacts)
    case Failed(why) => Failed(why)
    case Ok(entries) =>
      var record := Record(generation, PathsOf(files, artifacts), t);
      if generation in c.generations && c.generations[generation] != record then Failed(RecordChanged)
      else Ok(Content(entries, c.generations[generation := record]))
  }

  ghost function Discarded(c: Content, generation: nat): Content {
    if generation !in c.generations then c
    else
      var others := c.generations - {generation};
      var gone := set p | p in c.generations[generation].paths && !Referenced(others, p);
      Content(c.entries - gone, others)
  }

  // ----- the catalog object -----

  /** What the given generations reference. */
  method ReferencedPaths(generations: map<nat, Record>) returns (referenced: set<Path>)
    ensures forall p :: p in referenced <==> Referenced(generations, p)
  {
    referenced := {};
    var rest := generations.Values;
    while rest != {}
      invariant rest <= generations.Values
      invariant forall p :: p in referenced <==> exists r :: r in generations.Values && r !in rest && p in r.paths
    {
      var r :| r in rest;
      referenced := referenced + r.paths;
      rest := rest - {r};
    }
    forall p ensures (exists r :: r in generations.Values && p in r.paths) <==> Referenced(generations, p) {
      if Referenced(generations, p) {
        var g :| g in generations && p in generations[g].paths;
        assert generations[g] in generations.Values;
      }
      if r :| r in generations.Values && p in r.paths {
        var g :| g in generations && generations[g] == r;
      }
    }
  }

  class ArtifactCatalog {
    var entries: map<Path, Identity>
    var generations: map<nat, Record>

    ghost function Contents(): Content
      reads this
    {
      Content(entries, generations)
    }

    constructor ()
      ensures Contents() == Content(map[], map[]) && Consistent(Contents())
    {
      entries, generations := map[], map[];
    }

    /** A catalog read back from its file. */
    constructor Load(content: Content)
      ensures Contents() == content
    {
      entries, generations := content.entries, content.generations;
    }

    /** Registers a generation all or nothing: a refusal leaves the catalog as it was. */
    method RegisterGeneration(files: map<Path, File>, generation: nat, artifacts: seq<Artifact>, t: Option<Transaction>)
      returns (failure: Option<Failure>)
      modifies this
      ensures match Registered(files, old(Contents()), generation, artifacts, t)
        case Failed(why) => failure == Some(why) && Contents() == old(Contents())
        case Ok(after) => failure == None && Contents() == after
    {
      var entered := entries;
      var paths: set<Path> := {};
      for k := 0 to |artifacts|
        invariant Contents() == old(Contents())
        invariant EnterAll(files, entries, artifacts[..k]) == Ok(entered)
        invariant paths == PathsOf(files, artifacts[..k])
      {
        assert artifacts[..k + 1][..k] == artifacts[..k];
        var checked := Checked(files, artifacts[k]);
        if checked.Failed? {
          EnterAllFails(files, entries, artifacts, k);
          return Some(checked.why);
        }
        var identity := checked.value;
        if identity.path in entered && entered[identity.path] != identity {
          EnterAllFails(files, entries, artifacts, k);
          return Some(IdentityChanged);
        }
        entered := entered[identity.path := identity];
        PathsOfPush(files, artifacts, k);
        paths := paths + {identity.path};
      }
      assert artifacts[..|artifacts|] == artifacts;
      var record := Record(generation, paths, t);
      if generation in generations && generations[generation] != record {
        return Some(RecordChanged);
      }
      entries, generations := entered, generations[generation := record];
      failure := None;
    }

    /** Removes a generation and the entries only it referenced. */
    method DiscardGeneration(generation: nat)
      modifies this
      ensures Contents() == Discarded(old(Contents()), generation)
    {
      if generation !in generations {
        return;
      }
      var record := generations[generation];
      generations := generations - {generation};
      var referenced := ReferencedPaths(generations);
      var kept := entries;
      var paths := record.paths;
      while paths != {}
        invariant paths <= record.paths && Contents().generations == old(generations) - {generation} && entries == old(entries)
        invariant kept == entries - (record.paths - paths - referenced)
      {
        var p :| p in paths;
        if p !in referenced {
          kept := kept - {p};
        }
        paths := paths - {p};
      }
      entries := kept;
    }

    /** Verifies selected files against their recorded identities. */
    method Verify(files: map<Path, File>, paths: seq<string>) returns (r: Result<map<Path, string>>)
      ensures r.Ok? <==> forall k :: 0 <= k < |paths| ==>
                && SafeRelative(paths[k]).Some? && SafeRelative(paths[k]).value in entries && SafeRelative(paths[k]).value in files
                && var p := SafeRelative(paths[k]).value; files[p].size == entries[p].size && files[p].digest == entries[p].sha
      ensures r.Failed? ==> exists k :: 0 <= k < |paths| && Fault(files, entries, paths[k], r.why) && forall j :: 0 <= j < k ==> Verified(files, entries, paths[j])
      ensures r.Ok? ==> forall k :: 0 <= k < |paths| ==>
                SafeRelative(paths[k]).value in r.value && r.value[SafeRelative(paths[k]).value] == files[SafeRelative(paths[k]).value].digest
      ensures r.Ok? ==> forall p :: p in r.value ==> p in entries && p in files && r.value[p] == entries[p].sha == files[p].digest
    {
      var verified: map<Path, string> := map[];
      for k := 0 to |paths|
        invariant forall j :: 0 <= j < k ==> Verified(files, entries, paths[j]) && SafeRelative(paths[j]).value in verified
        invariant forall p :: p in verified ==> p in entries && p in files && verified[p] == entries[p].sha == files[p].digest
      {
        var safe := SafeRelative(paths[k]);
        if safe.None? {
          return Failed(UnsafePath);
        }
        var path := safe.value;
        if path !in entries {
          return Failed(NotCommitted);
        }
        if path !in files {
          return Failed(MissingFile);
        }
        if files[path].size != entries[path].size {
          return Failed(SizeChanged);
        }
        if files[path].digest != entries[path].sha {
          return Failed(HashMismatch);
        }
        verified := verified[path := files[path].digest];
      }
      return Ok(verified);
    }
  }

  /** The first thing that is wrong with a path. */
  predicate Fault(files: map<Path, File>, entries: map<Path, Identity>, raw: string, why: Failure) {
    var safe := SafeRelative(raw);
    match why
    case UnsafePath => safe.None?
    case NotCommitted => safe.Some? && safe.value !in entries
    case MissingFile => safe.Some? && safe.value in entries && safe.value !in files
    case SizeChanged => safe.Some? && safe.value in entries && safe.value in files && files[safe.value].size != entries[safe.value].size
    case HashMismatch =>
      && safe.Some? && safe.value in entries && safe.value in files && files[safe.value].size == entries[safe.value].size
      && files[safe.value].digest != entries[safe.value].sha
    case _ => false
  }

  predicate Verified(files: map<Path, File>, entries: map<Path, Identity>, raw: string) {
    var safe := SafeRelative(raw);
    && safe.Some? && safe.value in entries && safe.value in files
    && files[safe.value].size == entries[safe.value].size && files[safe.value].digest == entries[safe.value].sha
  }

  lemma {:induction false} EnterAllFails(files: map<Path, File>, entries: map<Path, Identity>, artifacts: seq<Artifact>, k: nat)
    requires k < |artifacts| && EnterAll(files, entries, artifacts[..k]).Ok?
    requires Enter(files, EnterAll(files, entries, artifacts[..k]).value, artifacts[k]).Failed?
    ensures EnterAll(files, entries, artifacts) == Failed(Enter(files, EnterAll(files, entries, artifacts[..k]).value, artifacts[k]).why)
    decreases |artifacts|
  {
    hide Enter, Checked;
    var last := |artifacts| - 1;
    if k == last {
      assert artifacts[..last] == artifacts[..k];
    } else {
      assert artifacts[..last][..k] == artifacts[..k];
      EnterAllFails(files, entries, artifacts[..last], k);
    }
  }

  lemma PathsOfPush(files: map<Path, File>, artifacts: seq<Artifact>, k: nat)
    requires k < |artifacts| && Checked(files, artifacts[k]).Ok?
    ensures PathsOf(files, artifacts[..k + 1]) == PathsOf(files, artifacts[..k]) + {Checked(files, artifacts[k]).value.path}
  {
    hide Checked;
    assert artifacts[..k + 1] == artifacts[..k] + [artifacts[k]];
  }

  // ----- when registration succeeds -----

  /** One artifact passes exactly when it is an object with a safe path, a SHA-256 hash, a size that is not negative,
      and the size of the file that is there; its identity is what it declares. */
  lemma CheckedExactly(files: map<Path, File>, a: Artifact)
    ensures Checked(files, a).Ok? <==>
      && a.Artifact? && SafeRelative(a.path).Some? && a.sha.Some? && a.size.Some?
      && |a.sha.value| == 71 && a.sha.value[..7] == "sha256:" && a.size.value >= 0
      && SafeRelative(a.path).value in files && files[SafeRelative(a.path).value].size == a.size.value
    ensures Checked(files, a).Ok? ==> Checked(files, a).value == Identity(SafeRelative(a.path).value, a.sha.value, a.size.value, a.extra)
    ensures a.Artifact? && SafeRelative(a.path).Some? && Checked(files, a).Failed? ==>
              Checked(files, a).why in {MalformedSha, MalformedSize, MissingFile, SizeChanged}
  {
    hide SafeRelative;
    assert |SHA_PREFIX| == 7;
    if a.Artifact? && a.sha.Some? && |a.sha.value| == 71 {
      assert SHA_PREFIX <= a.sha.value <==> a.sha.value[..7] == SHA_PREFIX;
    }
  }

  /** Registration in full: the paths listed join the entries with the identities declared, nothing else changes, and
      the generation is recorded with exactly these paths and its transaction. */
  lemma RegistrationExactly(files: map<Path, File>, c: Content, generation: nat, artifacts: seq<Artifact>, t: Option<Transaction>)
    requires Registered(files, c, generation, artifacts, t).Ok?
    ensures var after := Registered(files, c, generation, artifacts, t).value;
      && (forall p :: p in after.entries <==> p in c.entries || exists i :: 0 <= i < |artifacts| && Names(artifacts[i], p))
      && (forall p :: p in c.entries ==> after.entries[p] == c.entries[p])
      && (forall i :: 0 <= i < |artifacts| ==>
            && artifacts[i].Artifact? && SafeRelative(artifacts[i].path).Some? && artifacts[i].sha.Some? && artifacts[i].size.Some?
            && var p := SafeRelative(artifacts[i].path).value;
               p in after.entries && after.entries[p] == Identity(p, artifacts[i].sha.value, artifacts[i].size.value, artifacts[i].extra))
      && generation in after.generations && after.generations == c.generations[generation := after.generations[generation]]
      && after.generations[generation].generation == generation && after.generations[generation].transaction == t
      && (forall p :: p in after.generations[generation].paths <==> exists i :: 0 <= i < |artifacts| && Names(artifacts[i], p))
  {
    hide Checked, EnterAll, SafeRelative;
    EnterAllExactly(files, c.entries, artifacts);
    var after := Registered(files, c, generation, artifacts, t).value;
    forall i | 0 <= i < |artifacts|
      ensures artifacts[i].Artifact? && SafeRelative(artifacts[i].path).Some? && artifacts[i].sha.Some? && artifacts[i].size.Some?
      ensures var p := SafeRelative(artifacts[i].path).value;
        p in after.entries && after.entries[p] == Identity(p, artifacts[i].sha.value, artifacts[i].size.value, artifacts[i].extra)
    {
      assert HasIdentity(files, artifacts[i], after.entries);
      CheckedExactly(files, artifacts[i]);
    }
    forall p ensures p in PathsOf(files, artifacts) <==> exists i :: 0 <= i < |artifacts| && Names(artifacts[i], p) {
      if i :| 0 <= i < |artifacts| && Names(artifacts[i], p) {
        CheckedExactly(files, artifacts[i]);
        assert artifacts[i] in artifacts;
      }
      if p in PathsOf(files, artifacts) {
        var i := PathFrom(files, artifacts, p);
        CheckedExactly(files, artifacts[i]);
      }
    }
  }

  predicate Names(a: Artifact, p: Path) { a.Artifact? && SafeRelative(a.path) == Some(p) }

  ghost predicate NoConflict(files: map<Path, File>, entries: map<Path, Identity>, artifacts: seq<Artifact>) {
    && (forall i :: 0 <= i < |artifacts| ==> Checked(files, artifacts[i]).Ok?)
    && (forall i :: 0 <= i < |artifacts| ==> Compatible(entries, Checked(files, artifacts[i]).value))
    && (forall i, j :: 0 <= i < j < |artifacts| && Checked(files, artifacts[i]).value.path == Checked(files, artifacts[j]).value.path ==>
          Checked(files, artifacts[i]).value == Checked(files, artifacts[j]).value)
  }

  predicate Compatible(entries: map<Path, Identity>, identity: Identity) {
    identity.path in entries ==> entries[identity.path] == identity
  }

  /** What entering a list of artifacts does: the listed identities are in, nothing else changes. */
  ghost predicate EnteredExactly(files: map<Path, File>, entries: map<Path, Identity>, artifacts: seq<Artifact>, after: map<Path, Identity>) {
    && (forall p :: p in after <==> p in entries || p in PathsOf(files, artifacts))
    && (forall p :: p in entries ==> p in after && after[p] == entries[p])
    && (forall i :: 0 <= i < |artifacts| ==> HasIdentity(files, artifacts[i], after))
  }

  ghost predicate HasIdentity(files: map<Path, File>, a: Artifact, after: map<Path, Identity>) {
    Checked(files, a).Ok? && Checked(files, a).value.path in after && after[Checked(files, a).value.path] == Checked(files, a).value
  }

  lemma {:induction false} EnterAllExactly(files: map<Path, File>, entries: map<Path, Identity>, artifacts: seq<Artifact>)
    requires EnterAll(files, entries, artifacts).Ok?
    ensures EnteredExactly(files, entries, artifacts, EnterAll(files, entries, artifacts).value)
  {
    hide Checked, PathsOf, HasIdentity, Enter;
    if artifacts != [] {
      var last := |artifacts| - 1;
      EnterAllExactly(files, entries, artifacts[..last]);
      var before, after := EnterAll(files, entries, artifacts[..last]).value, EnterAll(files, entries, artifacts).value;
      EnterExactly(files, before, artifacts[last]);
      PathsOfPush(files, artifacts, last);
      assert artifacts[..last + 1] == artifacts;
      forall i | 0 <= i < |artifacts| ensures HasIdentity(files, artifacts[i], after) {
        if i < last {
          assert HasIdentity(files, artifacts[..last][i], before);
          IdentityStays(files, artifacts[i], before, after);
        }
      }
    } else {
      NoPaths(files);
    }
  }

  lemma NoPaths(files: map<Path, File>)
    ensures PathsOf(files, []) == {}
  {
  }

  lemma EnterExactly(files: map<Path, File>, entries: map<Path, Identity>, a: Artifact)
    requires Enter(files, entries, a).Ok?
    ensures var after := Enter(files, entries, a).value;
      && HasIdentity(files, a, after) && Checked(files, a).Ok? && (forall p :: p in entries ==> p in after && after[p] == entries[p])
      && (forall p :: p in after <==> p in entries || p == Checked(files, a).value.path)
  {
    hide Checked;
  }

  lemma IdentityStays(files: map<Path, File>, a: Artifact, before: map<Path, Identity>, after: map<Path, Identity>)
    requires HasIdentity(files, a, before) && forall p :: p in before ==> p in after && after[p] == before[p]
    ensures HasIdentity(files, a, after)
  {
    hide Checked;
  }

  /** Entering succeeds exactly when every artifact is well-formed and no path has two identities. */
  lemma {:induction false} EnterAllSucceeds(files: map<Path, File>, entries: map<Path, Identity>, artifacts: seq<Artifact>)
    ensures EnterAll(files, entries, artifacts).Ok? <==> NoConflict(files, entries, artifacts)
  {
    hide Checked;
    if artifacts != [] {
      var last := |artifacts| - 1;
      var front := artifacts[..last];
      EnterAllSucceeds(files, entries, front);
      assert forall i :: 0 <= i < last ==> front[i] == artifacts[i];
      if EnterAll(files, entries, front).Ok? {
        EnterAllExactly(files, entries, front);
        LastEnters(files, entries, artifacts);
      }
    }
  }

  lemma LastEnters(files: map<Path, File>, entries: map<Path, Identity>, artifacts: seq<Artifact>)
    requires artifacts != []
    requires var front := artifacts[..|artifacts| - 1];
      EnterAll(files, entries, front).Ok? && NoConflict(files, entries, front) && EnteredExactly(files, entries, front, EnterAll(files, entries, front).value)
    ensures Enter(files, EnterAll(files, entries, artifacts[..|artifacts| - 1]).value, artifacts[|artifacts| - 1]).Ok? <==>
            NoConflict(files, entries, artifacts)
  {
    hide Checked, PathsOf, HasIdentity, EnterAll;
    var last := |artifacts| - 1;
    var front := artifacts[..last];
    var before := EnterAll(files, entries, front).value;
    assert forall i :: 0 <= i < last ==> front[i] == artifacts[i];
    if Checked(files, artifacts[last]).Ok? {
      var identity := Checked(files, artifacts[last]).value;
      if identity.path in before && identity.path !in entries {
        var i := PathFrom(files, front, identity.path);
        EarlierIdentity(files, front, before, i);
      }
      forall i | 0 <= i < last
        ensures Checked(files, artifacts[i]).value.path in before && before[Checked(files, artifacts[i]).value.path] == Checked(files, artifacts[i]).value
      {
        EarlierIdentity(files, front, before, i);
      }
    }
  }

  lemma PathFrom(files: map<Path, File>, artifacts: seq<Artifact>, p: Path) returns (i: nat)
    requires p in PathsOf(files, artifacts)
    ensures i < |artifacts| && Checked(files, artifacts[i]).Ok? && Checked(files, artifacts[i]).value.path == p
  {
    hide Checked;
    var a :| a in artifacts && Checked(files, a).Ok? && Checked(files, a).value.path == p;
    i :| 0 <= i < |artifacts| && artifacts[i] == a;
  }

  lemma EarlierIdentity(files: map<Path, File>, artifacts: seq<Artifact>, after: map<Path, Identity>, i: nat)
    requires i < |artifacts| && forall j :: 0 <= j < |artifacts| ==> HasIdentity(files, artifacts[j], after)
    ensures Checked(files, artifacts[i]).Ok? && Checked(files, artifacts[i]).value.path in after
    ensures after[Checked(files, artifacts[i]).value.path] == Checked(files, artifacts[i]).value
  {
    hide Checked;
    assert HasIdentity(files, artifacts[i], after);
  }

  /** Registration succeeds exactly when the artifacts are well-formed and free of conflicts with the catalog
      and with each other, and the generation is new or recorded exactly like this. */
  lemma RegistrationSucceeds(files: map<Path, File>, c: Content, generation: nat, artifacts: seq<Artifact>, t: Option<Transaction>)
    ensures Registered(files, c, generation, artifacts, t).Ok? <==>
      && NoConflict(files, c.entries, artifacts)
      && (generation in c.generations ==> c.generations[generation] == Record(generation, PathsOf(files, artifacts), t))
  {
    EnterAllSucceeds(files, c.entries, artifacts);
  }

  // ----- reference discipline -----

  /** Registration keeps the catalog consistent and never changes a recorded identity. */
  lemma RegistrationKeeps(files: map<Path, File>, c: Content, generation: nat, artifacts: seq<Artifact>, t: Option<Transaction>)
    requires Consistent(c) && Registered(files, c, generation, artifacts, t).Ok?
    ensures var after := Registered(files, c, generation, artifacts, t).value;
      && Consistent(after)
      && (forall p :: p in c.entries ==> p in after.entries && after.entries[p] == c.entries[p])
      && (forall g :: g in c.generations ==> g in after.generations && after.generations[g] == c.generations[g])
  {
    hide Checked, PathsOf, HasIdentity, EnterAll, Referenced;
    var after := Registered(files, c, generation, artifacts, t).value;
    var paths := PathsOf(files, artifacts);
    EnterAllExactly(files, c.entries, artifacts);
    forall p ensures Referenced(after.generations, p) <==> Referenced(c.generations, p) || p in paths {
      ReferencedAfter(c.generations, generation, Record(generation, paths, t), p);
    }
    forall p | p in after.entries ensures after.entries[p].path == p && SHA_PREFIX <= after.entries[p].sha && after.entries[p].size >= 0 {
      if p !in c.entries {
        var i := PathFrom(files, artifacts, p);
        EarlierIdentity(files, artifacts, after.entries, i);
        CheckedWell(files, artifacts[i]);
      }
    }
  }

  lemma CheckedWell(files: map<Path, File>, a: Artifact)
    requires Checked(files, a).Ok?
    ensures SHA_PREFIX <= Checked(files, a).value.sha && Checked(files, a).value.size >= 0
  {
  }

  lemma ReferencedAfter(generations: map<nat, Record>, generation: nat, record: Record, p: Path)
    requires generation in generations ==> generations[generation] == record
    ensures Referenced(generations[generation := record], p) <==> Referenced(generations, p) || p in record.paths
  {
    var after := generations[generation := record];
    if Referenced(generations, p) {
      var g :| g in generations && p in generations[g].paths;
      assert g in after && p in after[g].paths;
    }
    if p in record.paths {
      assert generation in after && p in after[generation].paths;
    }
  }

  /** Registering the same generation again changes nothing. */
  lemma RegistrationIsIdempotent(files: map<Path, File>, c: Content, generation: nat, artifacts: seq<Artifact>, t: Option<Transaction>)
    requires Registered(files, c, generation, artifacts, t).Ok?
    ensures var after := Registered(files, c, generation, artifacts, t).value;
      Registered(files, after, generation, artifacts, t) == Ok(after)
  {
    hide Checked, PathsOf, HasIdentity, EnterAll;
    var after := Registered(files, c, generation, artifacts, t).value;
    EnterAllExactly(files, c.entries, artifacts);
    ReenterSame(files, after.entries, artifacts);
    assert after.generations[generation := after.generations[generation]] == after.generations;
  }

  lemma {:induction false} ReenterSame(files: map<Path, File>, entries: map<Path, Identity>, artifacts: seq<Artifact>)
    requires forall i :: 0 <= i < |artifacts| ==> HasIdentity(files, artifacts[i], entries)
    ensures EnterAll(files, entries, artifacts) == Ok(entries)
  {
    hide Checked;
    if artifacts != [] {
      var last := |artifacts| - 1;
      forall i | 0 <= i < last ensures HasIdentity(files, artifacts[..last][i], entries) {
        assert HasIdentity(files, artifacts[i], entries);
      }
      ReenterSame(files, entries, artifacts[..last]);
      assert HasIdentity(files, artifacts[last], entries);
      var identity := Checked(files, artifacts[last]).value;
      assert entries[identity.path := identity] == entries;
    }
  }

  /** Discarding keeps the catalog consistent, keeps the other generations and the identities that remain. */
  lemma DiscardKeeps(c: Content, generation: nat)
    requires Consistent(c)
    ensures var after := Discarded(c, generation);
      && Consistent(after) && generation !in after.generations
      && (forall p :: p in after.entries ==> p in c.entries && after.entries[p] == c.entries[p])
      && (forall g :: g in c.generations && g != generation ==> g in after.generations && after.generations[g] == c.generations[g])
  {
    var after := Discarded(c, generation);
    if generation in c.generations {
      var others := c.generations - {generation};
      forall p ensures p in after.entries <==> Referenced(others, p) {
        if Referenced(others, p) {
          var g :| g in others && p in others[g].paths;
          assert g in c.generations && p in c.generations[g].paths;
        }
        if p in after.entries {
          var g :| g in c.generations && p in c.generations[g].paths;
          assert g != generation ==> g in others && p in others[g].paths;
        }
      }
    }
  }

  /** Discarding a generation that was just registered for the first time restores the previous catalog exactly,
      shared paths included. */
  lemma DiscardRestores(files: map<Path, File>, c: Content, generation: nat, artifacts: seq<Artifact>, t: Option<Transaction>)
    requires Consistent(c) && generation !in c.generations && Registered(files, c, generation, artifacts, t).Ok?
    ensures Discarded(Registered(files, c, generation, artifacts, t).value, generation) == c
  {
    hide Checked;
    var after := Registered(files, c, generation, artifacts, t).value;
    var paths := PathsOf(files, artifacts);
    EnterAllExactly(files, c.entries, artifacts);
    var others := after.generations - {generation};
    assert others == c.generations;
    var gone := set p | p in paths && !Referenced(others, p);
    forall p ensures p in after.entries - gone <==> p in c.entries {
      assert p in c.entries <==> Referenced(c.generations, p);
    }
    assert after.entries - gone == c.entries;
  }

  // ----- every history of the catalog -----

  datatype Operation =
    | Register(files: map<Path, File>, generation: nat, artifacts: seq<Artifact>, transaction: Option<Transaction>)
    | Discard(generation: nat)

  ghost function Perform(c: Content, op: Operation): Content {
    match op
    case Register(files, generation, artifacts, t) =>
      (match Registered(files, c, generation, artifacts, t) case Ok(after) => after case Failed(_) => c)
    case Discard(generation) => Discarded(c, generation)
  }

  ghost function After(ops: seq<Operation>): Content {
    if ops == [] then Content(map[], map[]) else Perform(After(ops[..|ops| - 1]), ops[|ops| - 1])
  }

  /** Over every history, refusals included: the entries are the union of what the generations reference, and an
      identity never changes from one moment to the next while its path stays in the catalog. */
  lemma {:induction false} EveryHistory(ops: seq<Operation>)
    ensures Consistent(After(ops))
    ensures ops != [] ==> forall p :: p in After(ops[..|ops| - 1]).entries && p in After(ops).entries ==>
              After(ops).entries[p] == After(ops[..|ops| - 1]).entries[p]
  {
    if ops != [] {
      EveryHistory(ops[..|ops| - 1]);
      PerformKeeps(After(ops[..|ops| - 1]), ops[|ops| - 1]);
    }
  }

  lemma PerformKeeps(c: Content, op: Operation)
    requires Consistent(c)
    ensures Consistent(Perform(c, op))
    ensures forall p :: p in c.entries && p in Perform(c, op).entries ==> Perform(c, op).entries[p] == c.entries[p]
  {
    hide Consistent, Registered, Discarded;
    match op {
      case Register(files, generation, artifacts, t) =>
        if Registered(files, c, generation, artifacts, t).Ok? {
          RegistrationKeeps(files, c, generation, artifacts, t);
        }
      case Discard(generation) => DiscardKeeps(c, generation);
    }
  }
}
