/** The disk of the release store: two pointer files, content-addressed directories, and what it
    means for a pointer to resolve. */
module Releases {
  import opened Wrappers

  datatype Platform = Platform(windows: bool, target: string)

  // ---------------------------------------------------------------- manifests and releases

  datatype ServerManifest = ServerManifest(schema: int, desktopVersion: string, sourceRevision: string,
                                           target: string, fingerprint: string)

  datatype Layout = Layout(schema: int, target: string, pythonVersion: string, fingerprint: string,
                           executable: string, smokeTest: string)

  /** The runtime manifest: the expected layout, and the archive it describes. */
  datatype RuntimeManifest = RuntimeManifest(layout: Layout, archive: string, sha256: string)

  datatype ActiveRelease = ActiveRelease(schema: int, desktopVersion: string, sourceRevision: string,
                                         sourceId: string, runtimeId: string, target: string,
                                         executable: string, smokeTest: string)

  /** What a file contains: text, or one of the two JSON documents the store reads back. */
  datatype Content = Text(text: string) | LayoutJson(layout: Layout)

  type Tree = map<string, Content>

  /** A pointer file holds a release, or nothing that parses as one. */
  datatype Doc = Parsed(release: ActiveRelease) | Garbled

  datatype Kind = Source | Runtime

  datatype Dir = Dir(kind: Kind, name: string)

  datatype Disk = Disk(active: Option<Doc>, previous: Option<Doc>, temps: map<string, Doc>, dirs: map<Dir, Tree>)

  /** A release and the two trees it runs from. */
  datatype Installed = Installed(release: ActiveRelease, source: Tree, runtime: Tree)

  // ---------------------------------------------------------------- checks on strings

  predicate HexDigit(c: char) {
    '0' <= c <= '9' || 'a' <= c <= 'f' || 'A' <= c <= 'F'
  }

  predicate Identifier(id: string) {
    |id| >= 16 && forall i | 0 <= i < |id| :: HexDigit(id[i])
  }

  /** The length of the path component that starts a string. */
  function ComponentEnd(path: string): (n: nat)
    ensures n <= |path|
  {
    if path == "" || path[0] == '/' then 0 else 1 + ComponentEnd(path[1..])
  }

  predicate NoParentDir(path: string)
    decreases |path|
  {
    var n := ComponentEnd(path);
    path[..n] != ".." && (n < |path| ==> NoParentDir(path[n + 1..]))
  }

  predicate SafeRelative(path: string) {
    path != "" && path[0] != '/' && NoParentDir(path)
  }

  lemma {:induction false} ComponentEndOfJoin(a: string, b: string)
    ensures ComponentEnd(a + "/" + b) == ComponentEnd(a)
    decreases |a|
  {
    if a != "" && a[0] != '/' {
      assert (a + "/" + b)[1..] == a[1..] + "/" + b;
      ComponentEndOfJoin(a[1..], b);
    }
  }

  /** A path is free of parent directories exactly if every part of it is, wherever it is cut. */
  lemma {:induction false} NoParentDirOfJoin(a: string, b: string)
    ensures NoParentDir(a + "/" + b) <==> NoParentDir(a) && NoParentDir(b)
    ensures !NoParentDir("..")
    decreases |a|
  {
    var path, n := a + "/" + b, ComponentEnd(a);
    ComponentEndOfJoin(a, b);
    assert path[..n] == a[..n];
    if n < |a| {
      assert path[n + 1..] == a[n + 1..] + "/" + b;
      NoParentDirOfJoin(a[n + 1..], b);
    } else {
      assert path[n + 1..] == b;
    }
    OnlyParentDir();
  }

  /** Absolute paths are never safe; relative ones are as far as all of their parts are. */
  lemma SafeOfJoin(a: string, b: string)
    ensures !SafeRelative("/" + b)
    ensures a != "" && a[0] != '/' ==> (SafeRelative(a + "/" + b) <==> NoParentDir(a) && NoParentDir(b))
  {
    NoParentDirOfJoin(a, b);
  }

  lemma OnlyParentDir()
    ensures !NoParentDir("..")
  {
    assert ComponentEnd("."[1..]) == 0 && ".."[1..] == ".";
    assert ComponentEnd(".") == 1;
    assert ComponentEnd("..") == 2;
  }

  function StorageId(id: string, p: Platform): string {
    if p.windows && |id| >= 32 then id[..32] else id
  }

  /** Staging directories start with a dot; the directory of an identifier never does. */
  predicate Hidden(name: string) {
    name != "" && name[0] == '.'
  }

  lemma IdentifiersAreVisible(id: string, p: Platform)
    requires Identifier(id)
    ensures !Hidden(StorageId(id, p))
  {
  }

  function SourceDir(id: string, p: Platform): Dir { Dir(Source, StorageId(id, p)) }

  function RuntimeDir(id: string, p: Platform): Dir { Dir(Runtime, StorageId(id, p)) }

  // ---------------------------------------------------------------- resolving a pointer

  function TreeAt(d: Disk, dir: Dir): Tree {
    if dir in d.dirs then d.dirs[dir] else map[]
  }

  /** The trees a release would run from. */
  function TreesOf(d: Disk, r: ActiveRelease, p: Platform): Installed {
    Installed(r, TreeAt(d, SourceDir(r.sourceId, p)), TreeAt(d, RuntimeDir(r.runtimeId, p)))
  }

  predicate Complete(i: Installed) {
    && "src/backend/cli.py" in i.source && "src/frontend/dist/index.html" in i.source
    && i.release.executable in i.runtime && i.release.smokeTest in i.runtime
  }

  predicate WellFormed(r: ActiveRelease) {
    Identifier(r.sourceId) && Identifier(r.runtimeId) && SafeRelative(r.executable) && SafeRelative(r.smokeTest)
  }

  /** `read_release`: an error for a document that is none, nothing for a missing file or one whose
      directories are not there. */
  function ReadRelease(d: Disk, pointer: Option<Doc>, p: Platform): Result<Option<Installed>> {
    match pointer
    case None => Ok(None)
    case Some(Garbled) => Err("not a release")
    case Some(Parsed(r)) =>
      if !WellFormed(r) then Err("invalid release")
      else if Complete(TreesOf(d, r, p)) then Ok(Some(TreesOf(d, r, p))) else Ok(None)
  }

  /** What a pointer resolves to. */
  function Resolved(d: Disk, pointer: Option<Doc>, p: Platform): Option<Installed> {
    var r := ReadRelease(d, pointer, p);
    if r.Ok? then r.value else None
  }

  function ActiveOf(d: Disk, p: Platform): Option<Installed> { Resolved(d, d.active, p) }

  function PreviousOf(d: Disk, p: Platform): Option<Installed> { Resolved(d, d.previous, p) }

  // ---------------------------------------------------------------- what steps keep

  /** Everything in these directories is as it was. */
  ghost predicate KeepsDirs(d: Disk, t: Disk, dirs: set<Dir>) {
    forall dir | dir in dirs && dir in d.dirs :: dir in t.dirs && t.dirs[dir] == d.dirs[dir]
  }

  /** All directories but staging ones. */
  ghost predicate KeepsVisible(d: Disk, t: Disk) {
    forall dir | dir in d.dirs && !Hidden(dir.name) :: dir in t.dirs && t.dirs[dir] == d.dirs[dir]
  }

  ghost predicate SamePointers(d: Disk, t: Disk) {
    t.active == d.active && t.previous == d.previous
  }

  /** Nothing a pointer could resolve to has changed, though directories may have been added. */
  ghost predicate Additive(d: Disk, t: Disk) {
    SamePointers(d, t) && KeepsVisible(d, t)
  }

  lemma AdditiveTrans(d: Disk, t: Disk, u: Disk)
    requires Additive(d, t) && Additive(t, u)
    ensures Additive(d, u)
  {
  }

  /** A pointer that resolves goes on resolving to the same trees. */
  lemma KeptResolves(d: Disk, t: Disk, pointer: Option<Doc>, p: Platform)
    requires KeepsVisible(d, t) && Resolved(d, pointer, p).Some?
    ensures Resolved(t, pointer, p) == Resolved(d, pointer, p)
  {
  }

  /** The directories a pointer stands for, if it resolves. */
  function DirsOf(d: Disk, pointer: Option<Doc>, p: Platform): set<Dir> {
    match Resolved(d, pointer, p)
    case None => {}
    case Some(i) => {SourceDir(i.release.sourceId, p), RuntimeDir(i.release.runtimeId, p)}
  }

  lemma KeptDirsResolve(d: Disk, t: Disk, pointer: Option<Doc>, dirs: set<Dir>, p: Platform)
    requires KeepsDirs(d, t, dirs) && DirsOf(d, pointer, p) <= dirs && Resolved(d, pointer, p).Some?
    ensures Resolved(t, pointer, p) == Resolved(d, pointer, p)
  {
  }

  // ---------------------------------------------------------------- packages

  /** The payload files of a desktop package as they are found: a manifest that cannot be read or
      parsed is None; archives unpack entry by entry and may break off. `digest` stands for
      SHA-256 in hexadecimal, `smoke` for the smoke test's verdict. */
  datatype Package = Package(serverRaw: string, server: Option<ServerManifest>, runtime: Option<RuntimeManifest>,
                             archiveIntact: bool, enoughSpace: bool,
                             sourceArchive: Archive, runtimeArchive: Archive)

  datatype Archive = Archive(entries: seq<(string, Content)>, breaksOff: bool)

  function Unpacked(entries: seq<(string, Content)>): Tree {
    if entries == [] then map[]
    else Unpacked(entries[..|entries| - 1])[entries[|entries| - 1].0 := entries[|entries| - 1].1]
  }

  predicate ManifestsValid(s: ServerManifest, r: RuntimeManifest, p: Platform) {
    && s.schema == 2 && r.layout.schema == 1 && p.target != "unsupported"
    && s.target == p.target && r.layout.target == p.target
    && Identifier(r.layout.fingerprint) && s.fingerprint == r.layout.fingerprint
    && r.archive == "runtime-core.tar.gz"
    && SafeRelative(r.layout.executable) && SafeRelative(r.layout.smokeTest)
  }

  /** What valid manifests say: they belong together and to this platform, and name a release that a
      pointer file can hold. */
  lemma ValidManifestsMean(s: ServerManifest, r: RuntimeManifest, p: Platform, sourceId: string)
    requires ManifestsValid(s, r, p) && Identifier(sourceId)
    ensures s.schema == 2 && r.layout.schema == 1 && r.archive == "runtime-core.tar.gz"
    ensures s.target == r.layout.target == p.target != "unsupported" && s.fingerprint == r.layout.fingerprint
    ensures WellFormed(ReleaseOf(s, r, sourceId)) && ReleaseOf(s, r, sourceId).target == p.target
  {
  }

  predicate SourceValid(t: Tree, raw: string) {
    && "pyproject.toml" in t && "src/backend/cli.py" in t && "src/frontend/dist/index.html" in t
    && "desktop-bundle.json" in t && t["desktop-bundle.json"] == Text(raw)
  }

  predicate RuntimeValid(t: Tree, expected: Layout) {
    && "runtime-layout.json" in t && t["runtime-layout.json"] == LayoutJson(expected)
    && SafeRelative(expected.executable) && SafeRelative(expected.smokeTest)
    && expected.executable in t && expected.smokeTest in t
  }

  function ReleaseOf(s: ServerManifest, r: RuntimeManifest, sourceId: string): ActiveRelease {
    ActiveRelease(1, s.desktopVersion, s.sourceRevision, sourceId, r.layout.fingerprint,
                  r.layout.target, r.layout.executable, r.layout.smokeTest)
  }

  type Digest = f: string -> string | forall s :: Identifier(f(s)) witness (s => "0123456789abcdef")

  /** The release of a package with these trees is acceptable: manifests, trees and smoke test. */
  ghost predicate Accepted(i: Installed, pkg: Package, smoke: Installed -> bool, digest: Digest, p: Platform) {
    && pkg.server.Some? && pkg.runtime.Some? && ManifestsValid(pkg.server.value, pkg.runtime.value, p)
    && i.release == ReleaseOf(pkg.server.value, pkg.runtime.value, digest(pkg.serverRaw))
    && SourceValid(i.source, pkg.serverRaw) && RuntimeValid(i.runtime, pkg.runtime.value.layout)
    && smoke(i)
  }

  predicate NeedsInstall(d: Disk, pkg: Package, digest: Digest, p: Platform) {
    pkg.server == None || pkg.runtime == None || ActiveOf(d, p) == None
    || var r := ActiveOf(d, p).value.release;
       || r.sourceId != digest(pkg.serverRaw) || r.runtimeId != pkg.runtime.value.layout.fingerprint
       || r.target != p.target || pkg.server.value.fingerprint != pkg.runtime.value.layout.fingerprint
  }

  /** A pointer to an accepted release resolves, and asks for no further install. */
  lemma AcceptedResolves(d: Disk, i: Installed, pkg: Package, smoke: Installed -> bool, digest: Digest, p: Platform)
    requires Accepted(i, pkg, smoke, digest, p) && TreesOf(d, i.release, p) == i
    ensures Resolved(d, Some(Parsed(i.release)), p) == Some(i)
    ensures d.active == Some(Parsed(i.release)) ==> !NeedsInstall(d, pkg, digest, p)
  {
  }
}
