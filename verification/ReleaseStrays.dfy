/** The other half of `ReleaseRuns.Live`: a pointer file with a release that does not resolve, and is
    not stuck, can bring it into service although no installation has ever accepted it. */
module ReleaseStrays {
  import opened Wrappers
  import opened Releases
  import opened ReleaseStore
  import opened ReleaseRuns

  // ---------------------------------------------------------------- a package for given directories

  function Zeros(n: nat): string { seq(n, _ => '0') }

  /** An identifier that names neither of two directories. */
  function Fresh(a: string, b: string): (id: string)
    ensures Identifier(id) && |id| < 32 && id != a && id != b
  {
    if |a| != 16 && |b| != 16 then Zeros(16) else if |a| != 17 && |b| != 17 then Zeros(17) else Zeros(18)
  }

  lemma FreshNames(id: string, p: Platform)
    requires |id| < 32
    ensures StorageId(id, p) == id
  {
  }

  function SourceFiles(): seq<(string, Content)> {
    [("pyproject.toml", Text("")), ("src/backend/cli.py", Text("")), ("src/frontend/dist/index.html", Text(""))]
  }

  function RuntimeFiles(l: Layout): seq<(string, Content)> {
    [(l.executable, Text("")), (l.smokeTest, Text(""))]
  }

  lemma UnpackedMore(entries: seq<(string, Content)>, e: (string, Content))
    ensures Unpacked(entries + [e]) == Unpacked(entries)[e.0 := e.1]
  {
    assert (entries + [e])[..|entries|] == entries;
  }

  lemma {:induction false} UnpackedHas(entries: seq<(string, Content)>, i: nat)
    requires i < |entries|
    ensures entries[i].0 in Unpacked(entries)
    decreases |entries|
  {
    var n := |entries| - 1;
    if i < n { UnpackedHas(entries[..n], i); }
  }

  function PackageFor(raw: string, r: ActiveRelease, p: Platform): Package {
    var layout := Layout(1, p.target, "", r.runtimeId, r.executable, r.smokeTest);
    Package(raw, Some(ServerManifest(2, "", "", p.target, r.runtimeId)),
            Some(RuntimeManifest(layout, "runtime-core.tar.gz", "")), true, true,
            Archive(SourceFiles() + [("desktop-bundle.json", Text(raw))], false),
            Archive(RuntimeFiles(layout) + [("runtime-layout.json", LayoutJson(layout))], false))
  }

  lemma ArchivesAreValid(raw: string, r: ActiveRelease, p: Platform)
    requires WellFormed(r)
    ensures var pkg := PackageFor(raw, r, p);
            SourceValid(Unpacked(pkg.sourceArchive.entries), raw)
            && RuntimeValid(Unpacked(pkg.runtimeArchive.entries), pkg.runtime.value.layout)
  {
    var pkg := PackageFor(raw, r, p);
    var layout := pkg.runtime.value.layout;
    var source, runtime := SourceFiles(), RuntimeFiles(layout);
    UnpackedHas(source, 0);
    UnpackedHas(source, 1);
    UnpackedHas(source, 2);
    UnpackedMore(source, ("desktop-bundle.json", Text(raw)));
    UnpackedHas(runtime, 0);
    UnpackedHas(runtime, 1);
    UnpackedMore(runtime, ("runtime-layout.json", LayoutJson(layout)));
  }

  /** Directories that are not there yet can be installed. */
  lemma PackageProvides(d: Disk, raw: string, r: ActiveRelease, digest: Digest, p: Platform)
    requires WellFormed(r) && p.target != "unsupported" && SourceDir(digest(raw), p) !in d.dirs
    ensures var pkg := PackageFor(raw, r, p);
            && Checked(pkg, p)
            && var made := Candidate(d, pkg, digest, p).release;
               && made.sourceId == digest(raw) && made.runtimeId == r.runtimeId
               && SourceUsable(d, made, pkg, p)
               && (RuntimeDir(r.runtimeId, p) !in d.dirs ==> TreesValid(d, made, pkg, p))
  {
    ArchivesAreValid(raw, r, p);
  }

  // ---------------------------------------------------------------- clean up, fail to install, go back

  /** What a clean-up leaves. */
  ghost predicate Pruned(d: Disk, t: Disk, p: Platform) {
    var kept := DirsOf(d, d.active, p) + DirsOf(d, d.previous, p);
    && SamePointers(d, t) && KeepsDirs(d, t, kept)
    && forall dir | dir in t.dirs && !Hidden(dir.name) :: dir in kept
  }

  /** What a failed installation leaves. */
  ghost predicate Failed(d: Disk, t: Disk, pkg: Package, digest: Digest, p: Platform) {
    Additive(d, t)
    && (Checked(pkg, p) ==> LeavesTrees(d, t, Candidate(d, pkg, digest, p).release, pkg, p))
  }

  /** The source directory that a failing package has to bring: that of the record, unless the release
      in service runs from it already. */
  function SourceFor(d: Disk, r: ActiveRelease, p: Platform): (id: string)
    requires WellFormed(r)
    ensures Identifier(id)
  {
    if SharesSource(d, r, p) then Fresh(StorageId(r.sourceId, p), "") else r.sourceId
  }

  predicate SharesSource(d: Disk, r: ActiveRelease, p: Platform) {
    ActiveOf(d, p).Some? && SourceDir(ActiveOf(d, p).value.release.sourceId, p) == SourceDir(r.sourceId, p)
  }

  predicate SharesRuntime(d: Disk, r: ActiveRelease, p: Platform) {
    ActiveOf(d, p).Some? && RuntimeDir(ActiveOf(d, p).value.release.runtimeId, p) == RuntimeDir(r.runtimeId, p)
  }

  lemma NewDirs(d: Disk, t: Disk, r: ActiveRelease, p: Platform)
    requires WellFormed(r) && Pruned(d, t, p) && PreviousOf(d, p) == None
    ensures SourceDir(SourceFor(d, r, p), p) !in t.dirs
    ensures !SharesRuntime(d, r, p) ==> RuntimeDir(r.runtimeId, p) !in t.dirs
  {
    var id := SourceFor(d, r, p);
    IdentifiersAreVisible(id, p);
    IdentifiersAreVisible(r.runtimeId, p);
    if SharesSource(d, r, p) { FreshNames(id, p); }
  }

  /** What the failing package brings is unpacked and stays ... */
  lemma BringsTrees(t: Disk, u: Disk, r: ActiveRelease, raw: string, digest: Digest, p: Platform)
    requires WellFormed(r) && p.target != "unsupported" && SourceDir(digest(raw), p) !in t.dirs
    requires Failed(t, u, PackageFor(raw, r, p), digest, p)
    ensures var pkg := PackageFor(raw, r, p);
            && TreeAt(u, SourceDir(digest(raw), p)) == Unpacked(pkg.sourceArchive.entries)
            && (RuntimeDir(r.runtimeId, p) !in t.dirs ==>
                  TreeAt(u, RuntimeDir(r.runtimeId, p)) == Unpacked(pkg.runtimeArchive.entries))
  {
    PackageProvides(t, raw, r, digest, p);
  }

  /** ... and so does what the release in service runs from. */
  lemma ActiveStays(d: Disk, t: Disk, u: Disk, p: Platform)
    requires Pruned(d, t, p) && KeepsVisible(t, u) && SamePointers(t, u) && ActiveOf(d, p).Some?
    ensures ActiveOf(u, p) == ActiveOf(d, p)
  {
    KeptDirsResolve(d, t, d.active, DirsOf(d, d.active, p) + DirsOf(d, d.previous, p), p);
    KeptResolves(t, u, t.active, p);
  }

  lemma ResolvedMeans(d: Disk, pointer: Option<Doc>, p: Platform)
    requires Resolved(d, pointer, p).Some?
    ensures var i := Resolved(d, pointer, p).value;
            pointer == Some(Parsed(i.release)) && i == TreesOf(d, i.release, p) && Complete(i)
  {
  }

  predicate SourceComplete(t: Tree) {
    "src/backend/cli.py" in t && "src/frontend/dist/index.html" in t
  }

  predicate RuntimeComplete(t: Tree, r: ActiveRelease) {
    r.executable in t && r.smokeTest in t
  }

  lemma SourceIsThere(d: Disk, u: Disk, r: ActiveRelease, p: Platform)
    requires ActiveOf(d, p).Some? ==> ActiveOf(u, p) == ActiveOf(d, p)
    requires SharesSource(d, r, p) || SourceComplete(TreeAt(u, SourceDir(r.sourceId, p)))
    ensures SourceComplete(TreeAt(u, SourceDir(r.sourceId, p)))
  {
    if SharesSource(d, r, p) { ResolvedMeans(u, u.active, p); }
  }

  lemma RuntimeIsThere(d: Disk, u: Disk, r: ActiveRelease, p: Platform)
    requires WellFormed(r) && d.previous == Some(Parsed(r)) && !Stuck(d, p)
    requires ActiveOf(d, p).Some? ==> ActiveOf(u, p) == ActiveOf(d, p)
    requires SharesRuntime(d, r, p) || RuntimeComplete(TreeAt(u, RuntimeDir(r.runtimeId, p)), r)
    ensures RuntimeComplete(TreeAt(u, RuntimeDir(r.runtimeId, p)), r)
  {
    if SharesRuntime(d, r, p) { ResolvedMeans(u, u.active, p); }
  }

  lemma BothAreThere(d: Disk, t: Disk, u: Disk, r: ActiveRelease, raw: string, digest: Digest, p: Platform)
    requires WellFormed(r) && p.target != "unsupported" && digest(raw) == SourceFor(d, r, p)
    requires d.previous == Some(Parsed(r)) && !Stuck(d, p)
    requires Pruned(d, t, p) && PreviousOf(d, p) == None && Failed(t, u, PackageFor(raw, r, p), digest, p)
    ensures Complete(TreesOf(u, r, p))
  {
    NewDirs(d, t, r, p);
    BringsTrees(t, u, r, raw, digest, p);
    ArchivesAreValid(raw, r, p);
    if ActiveOf(d, p).Some? { ActiveStays(d, t, u, p); }
    SourceIsThere(d, u, r, p);
    RuntimeIsThere(d, u, r, p);
  }

  lemma PreviousWakes(d: Disk, t: Disk, u: Disk, r: ActiveRelease, raw: string, digest: Digest, p: Platform)
    requires WellFormed(r) && p.target != "unsupported" && digest(raw) == SourceFor(d, r, p)
    requires d.previous == Some(Parsed(r)) && !Stuck(d, p)
    requires Pruned(d, t, p) && Failed(t, u, PackageFor(raw, r, p), digest, p)
    ensures PreviousOf(u, p).Some?
  {
    if PreviousOf(d, p).Some? {
      KeptDirsResolve(d, t, d.previous, DirsOf(d, d.active, p) + DirsOf(d, d.previous, p), p);
      KeptResolves(t, u, t.previous, p);
    } else {
      BothAreThere(d, t, u, r, raw, digest, p);
    }
  }

  /** What an operation that nothing interrupts does to the disk. */
  ghost predicate Does(d: Disk, op: Op, t: Disk, digest: Digest, p: Platform) {
    match op
    case Prune => Pruned(d, t, p)
    case Restore(_) => Restores(d, t, p)
    case Install(pkg, smoke, _) => Installs(d, t, pkg, smoke, digest, p)
  }

  ghost predicate Installs(d: Disk, t: Disk, pkg: Package, smoke: Installed -> bool, digest: Digest, p: Platform) {
    if Installable(d, pkg, smoke, digest, p) then Serves(d, t, Candidate(d, pkg, digest, p), p)
    else Failed(d, t, pkg, digest, p)
  }

  ghost predicate Restores(d: Disk, t: Disk, p: Platform) {
    if PreviousOf(d, p) == None then SamePointers(d, t) && t.dirs == d.dirs else GoneBack(d, t)
  }

  ghost predicate GoneBack(d: Disk, t: Disk) {
    t.dirs == d.dirs && t.active == d.previous && t.previous == if d.active.Some? then d.active else d.previous
  }

  ghost predicate Reaches(d: Disk, ops: seq<Op>, t: Disk, digest: Digest, p: Platform)
    decreases |ops|
  {
    if ops == [] then t == d
    else exists m :: Reaches(d, AllButLast(ops), m, digest, p) && Does(m, Last(ops), t, digest, p)
  }

  function AllButLast(ops: seq<Op>): (rest: seq<Op>)
    requires ops != []
    ensures |rest| < |ops|
  {
    ops[..|ops| - 1]
  }

  function Last(ops: seq<Op>): Op
    requires ops != []
  {
    ops[|ops| - 1]
  }

  /** The operation does not accept this release, whatever its trees. */
  ghost predicate Spurns(op: Op, r: ActiveRelease, digest: Digest, p: Platform) {
    forall i: Installed | i.release == r :: !AcceptedBy(i, op, digest, p)
  }

  ghost predicate AllSpurn(ops: seq<Op>, r: ActiveRelease, digest: Digest, p: Platform) {
    forall op | op in ops :: Spurns(op, r, digest, p)
  }

  lemma OneMore(d: Disk, ops: seq<Op>, m: Disk, op: Op, t: Disk, r: ActiveRelease, digest: Digest, p: Platform)
    requires Reaches(d, ops, m, digest, p) && Does(m, op, t, digest, p)
    requires AllSpurn(ops, r, digest, p) && Spurns(op, r, digest, p)
    ensures Reaches(d, ops + [op], t, digest, p) && AllSpurn(ops + [op], r, digest, p)
  {
    assert AllButLast(ops + [op]) == ops;
  }

  const NEVER: Installed -> bool := i => false

  const ALWAYS: Installed -> bool := i => true

  /** Carries out an operation. */
  method Carry(store: Store, op: Op, digest: Digest)
    modifies store
    ensures Does(old(store.disk), op, store.disk, digest, store.platform)
  {
    match op {
      case Prune => ghost var steps := store.PruneOldReleases();
      case Restore(nonce) => GoBack(store, nonce);
      case Install(pkg, smoke, nonce) => TryInstalling(store, pkg, smoke, digest, nonce);
    }
  }

  method GoBack(store: Store, nonce: string)
    modifies store
    ensures Restores(old(store.disk), store.disk, store.platform)
  {
    var r, steps := store.RestorePrevious(nonce);
  }

  method TryInstalling(store: Store, pkg: Package, smoke: Installed -> bool, digest: Digest, nonce: string)
    modifies store
    ensures Installs(old(store.disk), store.disk, pkg, smoke, digest, store.platform)
  {
    var r, steps := store.InstallPayloads(pkg, smoke, digest, nonce);
  }

  /** A package for the stray's directories whose smoke test fails. */
  function Failing(r: ActiveRelease, p: Platform): Op { Install(PackageFor("", r, p), NEVER, "") }

  lemma GoingBack(d: Disk, t: Disk, p: Platform)
    requires Restores(d, t, p) && PreviousOf(d, p).Some?
    ensures t.active == d.previous && ActiveOf(t, p) == PreviousOf(d, p)
  {
    ResolvedMeans(d, d.previous, p);
  }

  lemma FailingFails(d: Disk, t: Disk, r: ActiveRelease, digest: Digest, p: Platform)
    requires Does(d, Failing(r, p), t, digest, p)
    ensures Failed(d, t, PackageFor("", r, p), digest, p) && Spurns(Failing(r, p), r, digest, p)
  {
  }

  /** Only an installation accepts. */
  lemma OthersSpurn(r: ActiveRelease, digest: Digest, p: Platform)
    ensures Spurns(Prune, r, digest, p) && Spurns(Restore(""), r, digest, p)
  {
  }

  method WakePrevious(store: Store, r: ActiveRelease, digest: Digest, ghost start: Disk, ghost before: seq<Op>)
    returns (ghost ops: seq<Op>)
    requires WellFormed(r) && store.platform.target != "unsupported"
    requires store.disk.previous == Some(Parsed(r)) && !Stuck(store.disk, store.platform)
    requires digest("") == SourceFor(store.disk, r, store.platform)
    requires Reaches(start, before, store.disk, digest, store.platform) && AllSpurn(before, r, digest, store.platform)
    modifies store
    ensures store.disk.active == Some(Parsed(r)) && ActiveOf(store.disk, store.platform).Some?
    ensures Reaches(start, ops, store.disk, digest, store.platform) && AllSpurn(ops, r, digest, store.platform)
  {
    ghost var d, p := store.disk, store.platform;
    OthersSpurn(r, digest, p);
    Carry(store, Prune, digest);
    ghost var t := store.disk;
    OneMore(start, before, d, Prune, t, r, digest, p);
    Carry(store, Failing(r, store.platform), digest);
    ghost var u := store.disk;
    FailingFails(t, u, r, digest, p);
    OneMore(start, before + [Prune], t, Failing(r, p), u, r, digest, p);
    PreviousWakes(d, t, u, r, "", digest, p);
    Carry(store, Restore(""), digest);
    GoingBack(u, store.disk, p);
    OneMore(start, before + [Prune] + [Failing(r, p)], u, Restore(""), store.disk, r, digest, p);
    ops := before + [Prune] + [Failing(r, p)] + [Restore("")];
  }

  /** The plainest case, whatever is in service: an installation fails at its smoke test, the previous
      pointer holds the record of that very release, and a rollback puts it into service. */
  lemma FailedReleaseServes(d: Disk, t: Disk, u: Disk, op: Op, nonce: string, digest: Digest, p: Platform)
    requires op.Install? && Checked(op.pkg, p)
    requires var i := Candidate(d, op.pkg, digest, p);
             TreesValid(d, i.release, op.pkg, p) && !op.smoke(i) && d.previous == Some(Parsed(i.release))
    requires Does(d, op, t, digest, p) && Does(t, Restore(nonce), u, digest, p)
    ensures ActiveOf(u, p) == Some(Candidate(d, op.pkg, digest, p))
    ensures !AcceptedBy(Candidate(d, op.pkg, digest, p), op, digest, p)
  {
    InstallableMeans(d, op.pkg, op.smoke, digest, p);
    var i := Candidate(d, op.pkg, digest, p);
    assert TreesOf(t, i.release, p) == i;
    assert Complete(i) && WellFormed(i.release);
    assert PreviousOf(t, p) == Some(i);
    GoingBack(t, u, p);
  }

  // ---------------------------------------------------------------- every stray can come into service

  /** Identifiers for another release, apart from the previous pointer's directories and the stray's. */
  function OtherSource(d: Disk, r: ActiveRelease, p: Platform): (id: string)
    ensures Identifier(id) && |id| < 32 && SourceDir(id, p) != SourceDir(r.sourceId, p)
    ensures SourceDir(id, p) !in DirsOf(d, d.previous, p)
  {
    var other := if PreviousOf(d, p).Some? then PreviousOf(d, p).value.release.sourceId else "";
    var id := Fresh(StorageId(r.sourceId, p), StorageId(other, p));
    FreshNames(id, p);
    id
  }

  function OtherRuntime(d: Disk, r: ActiveRelease, p: Platform): (id: string)
    ensures Identifier(id) && |id| < 32 && RuntimeDir(id, p) != RuntimeDir(r.runtimeId, p)
    ensures RuntimeDir(id, p) !in DirsOf(d, d.previous, p)
  {
    var other := if PreviousOf(d, p).Some? then PreviousOf(d, p).value.release.runtimeId else "";
    var id := Fresh(StorageId(r.runtimeId, p), StorageId(other, p));
    FreshNames(id, p);
    id
  }

  /** A package for other directories that is installed. */
  function Covering(r: ActiveRelease, p: Platform): Op { Install(PackageFor("other", r, p), ALWAYS, "") }

  /** The other release is installed over the stray, which becomes the previous one. */
  lemma CoveringServes(d: Disk, t: Disk, r: ActiveRelease, digest: Digest, p: Platform)
    requires WellFormed(r) && p.target != "unsupported" && d.active.Some?
    requires SourceDir(digest("other"), p) !in d.dirs && RuntimeDir(r.runtimeId, p) !in d.dirs
    requires Does(d, Covering(r, p), t, digest, p)
    ensures t.previous == d.active && ActiveOf(t, p).Some?
    ensures var release := ActiveOf(t, p).value.release;
            release.sourceId == digest("other") && release.runtimeId == r.runtimeId
  {
    var pkg := PackageFor("other", r, p);
    PackageProvides(d, "other", r, digest, p);
    InstallableMeans(d, pkg, ALWAYS, digest, p);
    AcceptedResolves(t, Candidate(d, pkg, digest, p), pkg, ALWAYS, digest, p);
  }

  lemma OthersAreNew(d: Disk, t: Disk, r: ActiveRelease, p: Platform)
    requires Pruned(d, t, p) && Stray(d, d.active, p) && d.active == Some(Parsed(r))
    ensures SourceDir(OtherSource(d, r, p), p) !in t.dirs && RuntimeDir(OtherRuntime(d, r, p), p) !in t.dirs
  {
    IdentifiersAreVisible(OtherSource(d, r, p), p);
    IdentifiersAreVisible(OtherRuntime(d, r, p), p);
  }

  /** What resolved before is what a pointer file said, so it is not what a stray says. */
  lemma StraysAreNotInPlace(d: Disk, t: Disk, doc: Doc, p: Platform)
    requires doc in Strays(d, p) && t.active == Some(doc) && ActiveOf(t, p).Some?
    ensures ActiveOf(t, p).value !in InPlace(d, p)
  {
    ResolvedMeans(t, t.active, p);
    if ActiveOf(d, p).Some? { ResolvedMeans(d, d.active, p); }
    if PreviousOf(d, p).Some? { ResolvedMeans(d, d.previous, p); }
  }

  /** An installation accepts nothing with another runtime. */
  lemma CoveringSpurns(r: ActiveRelease, other: ActiveRelease, digest: Digest, p: Platform)
    requires other.runtimeId != r.runtimeId
    ensures Spurns(Covering(other, p), r, digest, p)
  {
  }

  /** With a release of other directories in service, the stray is the previous one and not stuck. */
  lemma Apart(d: Disk, r: ActiveRelease, p: Platform)
    requires ActiveOf(d, p).Some? && WellFormed(r) && d.previous == Some(Parsed(r))
    requires var i := ActiveOf(d, p).value.release;
             && SourceDir(i.sourceId, p) != SourceDir(r.sourceId, p)
             && RuntimeDir(i.runtimeId, p) != RuntimeDir(r.runtimeId, p)
    ensures !Stuck(d, p) && SourceFor(d, r, p) == r.sourceId
  {
  }

  /** On every disk, for every stray of one of its pointer files: the operations `ops`, none of which
      accepts its release, put it into service. */
  method Wake(store: Store, doc: Doc) returns (digest: Digest, ghost ops: seq<Op>)
    requires store.platform.target != "unsupported" && doc in Strays(store.disk, store.platform)
    modifies store
    ensures Reaches(old(store.disk), ops, store.disk, digest, store.platform)
    ensures store.disk.active == Some(doc) && ActiveOf(store.disk, store.platform).Some?
    ensures var i := ActiveOf(store.disk, store.platform).value;
            i !in InPlace(old(store.disk), store.platform)
            && forall op | op in ops :: !AcceptedBy(i, op, digest, store.platform)
  {
    ghost var d, p := store.disk, store.platform;
    var r := doc.release;
    if store.disk.active == Some(doc) {
      digest, ops := WakeActive(store, r);
    } else {
      var id := SourceFor(store.disk, r, store.platform);
      digest := (raw: string) => id;
      ghost var none: seq<Op> := [];
      ops := WakePrevious(store, r, digest, d, none);
    }
    ResolvedMeans(store.disk, store.disk.active, p);
    StraysAreNotInPlace(d, store.disk, doc, p);
  }

  /** Another release takes the place of a stray that the active pointer holds. */
  method Cover(store: Store, r: ActiveRelease, other: ActiveRelease, digest: Digest)
    returns (ghost ops: seq<Op>)
    requires store.platform.target != "unsupported" && store.disk.active == Some(Parsed(r))
    requires Stray(store.disk, store.disk.active, store.platform)
    requires other == r.(runtimeId := OtherRuntime(store.disk, r, store.platform))
    requires digest("other") == OtherSource(store.disk, r, store.platform)
    modifies store
    ensures store.disk.previous == Some(Parsed(r)) && !Stuck(store.disk, store.platform)
    ensures SourceFor(store.disk, r, store.platform) == r.sourceId
    ensures Reaches(old(store.disk), ops, store.disk, digest, store.platform)
    ensures AllSpurn(ops, r, digest, store.platform)
  {
    ghost var d, p := store.disk, store.platform;
    ghost var none: seq<Op> := [];
    Carry(store, Prune, digest);
    ghost var t := store.disk;
    OthersSpurn(r, digest, p);
    OneMore(d, none, d, Prune, t, r, digest, p);
    OthersAreNew(d, t, r, p);
    Carry(store, Covering(other, store.platform), digest);
    CoveringServes(t, store.disk, other, digest, p);
    CoveringSpurns(r, other, digest, p);
    OneMore(d, none + [Prune], t, Covering(other, p), store.disk, r, digest, p);
    Apart(store.disk, r, p);
    ops := none + [Prune] + [Covering(other, p)];
  }

  method WakeActive(store: Store, r: ActiveRelease) returns (digest: Digest, ghost ops: seq<Op>)
    requires store.platform.target != "unsupported" && store.disk.active == Some(Parsed(r))
    requires Stray(store.disk, store.disk.active, store.platform)
    modifies store
    ensures Reaches(old(store.disk), ops, store.disk, digest, store.platform)
    ensures store.disk.active == Some(Parsed(r)) && ActiveOf(store.disk, store.platform).Some?
    ensures AllSpurn(ops, r, digest, store.platform)
  {
    ghost var d, p := store.disk, store.platform;
    var source := OtherSource(store.disk, r, store.platform);
    var other := r.(runtimeId := OtherRuntime(store.disk, r, store.platform));
    digest := (raw: string) => if raw == "other" then source else r.sourceId;
    ghost var first := Cover(store, r, other, digest);
    ops := WakePrevious(store, r, digest, d, first);
  }
}
