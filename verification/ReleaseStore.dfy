/** The operations of the release store, step by step on the disk. `history` collects the disk after
    every single step: each of its states is one a crash can leave behind. */
module ReleaseStore {
  import opened Wrappers
  import opened Releases

  // ---------------------------------------------------------------- states in between

  lemma Joined(a: seq<Disk>, b: seq<Disk>, c: seq<Disk>)
    ensures (a + b) + c == a + (b + c)
  {
  }

  ghost predicate AllAdditive(d: Disk, states: seq<Disk>) {
    forall i | 0 <= i < |states| :: Additive(d, states[i])
  }

  lemma AllAdditiveTrans(d: Disk, t: Disk, before: seq<Disk>, after: seq<Disk>)
    requires AllAdditive(d, before) && Additive(d, t) && AllAdditive(t, after)
    ensures AllAdditive(d, before + after)
  {
  }

  /** One directory may be different, nothing else is. */
  ghost predicate OnlyDir(d: Disk, t: Disk, dir: Dir) {
    SamePointers(d, t)
    && forall x | x != dir :: (x in t.dirs <==> x in d.dirs) && (x in d.dirs ==> t.dirs[x] == d.dirs[x])
  }

  ghost predicate AllOnlyDir(d: Disk, states: seq<Disk>, dir: Dir) {
    forall i | 0 <= i < |states| :: OnlyDir(d, states[i], dir)
  }

  lemma StagingIsAdditive(d: Disk, states: seq<Disk>, dir: Dir)
    requires AllOnlyDir(d, states, dir) && (Hidden(dir.name) || dir !in d.dirs)
    ensures AllAdditive(d, states)
  {
  }

  ghost predicate AllKeep(d: Disk, states: seq<Disk>, kept: set<Dir>) {
    forall i | 0 <= i < |states| :: SamePointers(d, states[i]) && KeepsDirs(d, states[i], kept)
  }

  lemma RemovalKeeps(d: Disk, mid: Disk, states: seq<Disk>, dir: Dir, kept: set<Dir>)
    requires SamePointers(d, mid) && KeepsDirs(d, mid, kept) && AllOnlyDir(mid, states, dir) && dir !in kept
    ensures AllKeep(d, states, kept)
  {
  }

  /** Apart from staging directories, only this one may be different. */
  ghost predicate OnlyVisible(d: Disk, t: Disk, dir: Dir) {
    forall x | x != dir && !Hidden(x.name) :: (x in t.dirs <==> x in d.dirs) && (x in d.dirs ==> t.dirs[x] == d.dirs[x])
  }

  /** Between the old pointers and the new ones, with the same directories. */
  ghost predicate Pointing(d: Disk, t: Disk, states: seq<Disk>) {
    forall i | 0 <= i < |states| ::
      states[i].dirs == d.dirs && (SamePointers(d, states[i]) || SamePointers(t, states[i]))
  }

  /** During an installation: as before but for added directories, or with the pointers moved on, in
      this order, and the new release complete. */
  ghost predicate MidInstall(d: Disk, s: Disk, newer: Installed, p: Platform) {
    && KeepsVisible(d, s)
    && (SamePointers(d, s) || Switching(d, s, newer, p))
  }

  ghost predicate Switching(d: Disk, s: Disk, newer: Installed, p: Platform) {
    && TreesOf(s, newer.release, p) == newer
    && (s.active == d.active || s.active == Some(Parsed(newer.release)))
    && s.previous == if d.active.Some? then d.active else d.previous
  }

  ghost predicate AllMidInstall(d: Disk, states: seq<Disk>, newer: Installed, p: Platform) {
    forall i | 0 <= i < |states| :: MidInstall(d, states[i], newer, p)
  }

  /** The release is in service and the former one is the previous one. */
  ghost predicate Serves(d: Disk, t: Disk, newer: Installed, p: Platform) {
    && KeepsVisible(d, t) && TreesOf(t, newer.release, p) == newer
    && t.active == Some(Parsed(newer.release))
    && t.previous == if d.active.Some? then d.active else d.previous
  }

  lemma ServesTrans(d: Disk, mid: Disk, t: Disk, newer: Installed, p: Platform)
    requires Additive(d, mid) && Serves(mid, t, newer, p)
    ensures Serves(d, t, newer, p)
  {
  }

  lemma AllMidInstallTrans(d: Disk, mid: Disk, before: seq<Disk>, after: seq<Disk>, newer: Installed, p: Platform)
    requires Additive(d, mid) && AllAdditive(d, before) && AllMidInstall(mid, after, newer, p)
    ensures AllMidInstall(d, before + after, newer, p)
  {
  }

  /** What a package's directory contains once it is there. */
  function Provided(d: Disk, dir: Dir, archive: Archive): Tree {
    if dir in d.dirs then d.dirs[dir] else Unpacked(archive.entries)
  }

  /** What installing a package on this disk would put into service. */
  function Candidate(d: Disk, pkg: Package, digest: Digest, p: Platform): Installed
    requires pkg.server.Some? && pkg.runtime.Some?
  {
    ProvidedTrees(d, ReleaseOf(pkg.server.value, pkg.runtime.value, digest(pkg.serverRaw)), pkg, p)
  }

  function ProvidedTrees(d: Disk, r: ActiveRelease, pkg: Package, p: Platform): Installed {
    Installed(r, Provided(d, SourceDir(r.sourceId, p), pkg.sourceArchive),
              Provided(d, RuntimeDir(r.runtimeId, p), pkg.runtimeArchive))
  }

  predicate SourceUsable(d: Disk, r: ActiveRelease, pkg: Package, p: Platform) {
    var dir := SourceDir(r.sourceId, p);
    && SourceValid(Provided(d, dir, pkg.sourceArchive), pkg.serverRaw)
    && (dir in d.dirs || !pkg.sourceArchive.breaksOff)
  }

  predicate RuntimeUsable(d: Disk, r: ActiveRelease, pkg: Package, p: Platform)
    requires pkg.runtime.Some?
  {
    var dir := RuntimeDir(r.runtimeId, p);
    && RuntimeValid(Provided(d, dir, pkg.runtimeArchive), pkg.runtime.value.layout)
    && (dir in d.dirs || !pkg.runtimeArchive.breaksOff)
  }

  predicate TreesValid(d: Disk, r: ActiveRelease, pkg: Package, p: Platform)
    requires pkg.runtime.Some?
  {
    SourceUsable(d, r, pkg, p) && RuntimeUsable(d, r, pkg, p)
  }

  /** What an installation leaves behind wherever it ends: the trees that have passed their checks,
      the source first. */
  ghost predicate LeavesTrees(d: Disk, t: Disk, r: ActiveRelease, pkg: Package, p: Platform)
    requires pkg.runtime.Some?
  {
    var source, runtime := SourceDir(r.sourceId, p), RuntimeDir(r.runtimeId, p);
    && (SourceUsable(d, r, pkg, p) ==> source in t.dirs && t.dirs[source] == Provided(d, source, pkg.sourceArchive))
    && (TreesValid(d, r, pkg, p) ==>
          runtime in t.dirs && t.dirs[runtime] == Provided(d, runtime, pkg.runtimeArchive))
  }

  /** The package passes the checks that need no unpacking. */
  predicate Checked(pkg: Package, p: Platform) {
    && pkg.server.Some? && pkg.runtime.Some? && ManifestsValid(pkg.server.value, pkg.runtime.value, p)
    && pkg.archiveIntact && pkg.enoughSpace
  }

  /** The exact condition for an installation to succeed. An archive that is not needed any more,
      because its directory is there already, may be broken. */
  ghost predicate Installable(d: Disk, pkg: Package, smoke: Installed -> bool, digest: Digest, p: Platform) {
    && pkg.server.Some? && pkg.runtime.Some? && pkg.archiveIntact && pkg.enoughSpace
    && var i := Candidate(d, pkg, digest, p);
       Accepted(i, pkg, smoke, digest, p) && TreesValid(d, i.release, pkg, p)
  }

  lemma InstallableMeans(d: Disk, pkg: Package, smoke: Installed -> bool, digest: Digest, p: Platform)
    requires Checked(pkg, p)
    ensures var r := ReleaseOf(pkg.server.value, pkg.runtime.value, digest(pkg.serverRaw));
            && Identifier(r.sourceId) && Identifier(r.runtimeId)
            && Candidate(d, pkg, digest, p) == ProvidedTrees(d, r, pkg, p)
            && (Installable(d, pkg, smoke, digest, p)
                <==> TreesValid(d, r, pkg, p) && smoke(ProvidedTrees(d, r, pkg, p)))
  {
  }

  class Store {
    const platform: Platform
    var disk: Disk
    var history: seq<Disk>

    constructor (platform: Platform, disk: Disk)
      ensures this.platform == platform && this.disk == disk && history == []
    {
      this.platform, this.disk := platform, disk;
      history := [];
    }

    method Set(d: Disk)
      modifies this
      ensures disk == d && history == old(history) + [d]
    {
      disk := d;
      history := history + [d];
    }

    /** The machine stops after a step; the program finds the disk like that when it starts again. */
    method Crash(at: nat)
      requires at < |history|
      modifies this
      ensures disk == old(history)[at] && history == old(history)[..at + 1]
    {
      disk := history[at];
      history := history[..at + 1];
    }

    // ---------------------------------------------------------------- files and directories
    // Every operation returns the states it went through.

    /** Created empty, written, and renamed over the pointer file. */
    method AtomicWrite(onActive: bool, doc: Doc, nonce: string) returns (ghost steps: seq<Disk>)
      modifies this
      ensures disk.dirs == old(disk).dirs
      ensures disk.active == (if onActive then Some(doc) else old(disk).active)
      ensures disk.previous == (if onActive then old(disk).previous else Some(doc))
      ensures history == old(history) + steps && Pointing(old(disk), disk, steps)
    {
      var created := disk.(temps := disk.temps[nonce := Garbled]);
      var written := disk.(temps := disk.temps[nonce := doc]);
      var rest := disk.temps - {nonce};
      var renamed :=
        if onActive then disk.(temps := rest, active := Some(doc)) else disk.(temps := rest, previous := Some(doc));
      Set(created);
      Set(written);
      Set(renamed);
      steps := [created, written, renamed];
    }

    /** Puts a tree in the place of a directory. */
    method SetTree(dir: Dir, tree: Tree)
      modifies this
      ensures disk == old(disk).(dirs := old(disk).dirs[dir := tree])
      ensures history == old(history) + [disk] && OnlyDir(old(disk), disk, dir)
    {
      Set(disk.(dirs := disk.dirs[dir := tree]));
    }

    method DropDir(dir: Dir)
      modifies this
      ensures disk == old(disk).(dirs := old(disk).dirs - {dir})
      ensures history == old(history) + [disk] && OnlyDir(old(disk), disk, dir)
    {
      Set(disk.(dirs := disk.dirs - {dir}));
    }

    /** Removes the files of a directory one by one, in whatever order. */
    method EmptyDir(dir: Dir) returns (ghost steps: seq<Disk>)
      requires dir in disk.dirs
      modifies this
      ensures disk == old(disk).(dirs := old(disk).dirs[dir := map[]])
      ensures history == old(history) + steps && AllOnlyDir(old(disk), steps, dir)
    {
      var tree := disk.dirs[dir];
      var files := tree.Keys;
      steps := [];
      assert disk.dirs[dir := tree] == disk.dirs;
      while files != {}
        invariant tree.Keys == files && disk == old(disk).(dirs := old(disk).dirs[dir := tree])
        invariant history == old(history) + steps && AllOnlyDir(old(disk), steps, dir)
        decreases |files|
      {
        var path :| path in files;
        files := files - {path};
        tree := tree - {path};
        SetTree(dir, tree);
        steps := steps + [disk];
      }
      assert tree == map[];
    }

    method RemoveTree(dir: Dir) returns (ghost steps: seq<Disk>)
      modifies this
      ensures disk == old(disk).(dirs := old(disk).dirs - {dir})
      ensures history == old(history) + steps && AllOnlyDir(old(disk), steps, dir)
    {
      steps := [];
      if dir !in disk.dirs {
        assert disk.dirs - {dir} == disk.dirs;
        return;
      }
      steps := EmptyDir(dir);
      DropDir(dir);
      steps := steps + [disk];
      assert disk.dirs == old(disk).dirs - {dir};
    }

    // ---------------------------------------------------------------- installing

    /** Unpacks an archive into an empty directory, entry by entry, as far as it goes. */
    method Unpack(archive: Archive, dir: Dir) returns (ghost steps: seq<Disk>)
      requires dir in disk.dirs && disk.dirs[dir] == map[]
      modifies this
      ensures disk == old(disk).(dirs := old(disk).dirs[dir := Unpacked(archive.entries)])
      ensures history == old(history) + steps && AllOnlyDir(old(disk), steps, dir)
    {
      var tree: Tree := map[];
      steps := [];
      assert disk.dirs[dir := tree] == disk.dirs;
      for i := 0 to |archive.entries|
        invariant tree == Unpacked(archive.entries[..i])
        invariant disk == old(disk).(dirs := old(disk).dirs[dir := tree])
        invariant history == old(history) + steps && AllOnlyDir(old(disk), steps, dir)
      {
        assert archive.entries[..i + 1][..i] == archive.entries[..i];
        tree := tree[archive.entries[i].0 := archive.entries[i].1];
        SetTree(dir, tree);
        steps := steps + [disk];
      }
      assert archive.entries[..|archive.entries|] == archive.entries;
    }

    /** An atomic rename, unless the destination has turned up meanwhile. */
    method CommitDirectory(staged: Dir, destination: Dir) returns (ghost steps: seq<Disk>)
      requires staged in disk.dirs && Hidden(staged.name) && !Hidden(destination.name)
      modifies this
      ensures destination in disk.dirs
      ensures disk.dirs[destination] == old(disk).dirs[if destination in old(disk).dirs then destination else staged]
      ensures Additive(old(disk), disk) && OnlyVisible(old(disk), disk, destination)
      ensures history == old(history) + steps && AllAdditive(old(disk), steps)
    {
      if destination in disk.dirs {
        steps := RemoveTree(staged);
        StagingIsAdditive(old(disk), steps, staged);
        return;
      }
      Set(disk.(dirs := (disk.dirs - {staged})[destination := disk.dirs[staged]]));
      steps := [disk];
    }

    /** A directory that is there is checked; one that is not is staged, checked and renamed. */
    method EnsureDir(dir: Dir, archive: Archive, check: Tree -> bool, nonce: string)
      returns (ok: bool, ghost steps: seq<Disk>)
      requires !Hidden(dir.name)
      modifies this
      ensures Additive(old(disk), disk) && OnlyVisible(old(disk), disk, dir)
      ensures history == old(history) + steps && AllAdditive(old(disk), steps)
      ensures ok <==> check(Provided(old(disk), dir, archive)) && (dir in old(disk).dirs || !archive.breaksOff)
      ensures ok ==> dir in disk.dirs && disk.dirs[dir] == Provided(old(disk), dir, archive)
    {
      steps := [];
      if dir in disk.dirs {
        ok := check(disk.dirs[dir]);
        return;
      }
      var staged := Dir(dir.kind, "." + dir.name + ".stage-" + nonce);
      steps := Stage(archive, staged);
      ok := !archive.breaksOff && check(disk.dirs[staged]);
      ghost var mid := disk;
      ghost var more;
      if ok {
        more := CommitDirectory(staged, dir);
      } else {
        more := RemoveTree(staged);
        StagingIsAdditive(mid, more, staged);
      }
      AllAdditiveTrans(old(disk), mid, steps, more);
      steps := steps + more;
    }

    method Stage(archive: Archive, staged: Dir) returns (ghost steps: seq<Disk>)
      requires Hidden(staged.name)
      modifies this
      ensures OnlyDir(old(disk), disk, staged) && Additive(old(disk), disk)
      ensures staged in disk.dirs && disk.dirs[staged] == Unpacked(archive.entries)
      ensures history == old(history) + steps && AllAdditive(old(disk), steps)
    {
      steps := RemoveTree(staged);
      SetTree(staged, map[]);
      steps := steps + [disk];
      ghost var more := Unpack(archive, staged);
      steps := steps + more;
      assert AllOnlyDir(old(disk), steps, staged);
      StagingIsAdditive(old(disk), steps, staged);
    }

    /** First the pointer to the former release, then the one to the new. */
    method Activate(release: ActiveRelease, nonce: string) returns (ghost steps: seq<Disk>)
      modifies this
      ensures disk.dirs == old(disk).dirs && disk.active == Some(Parsed(release))
      ensures disk.previous == if old(disk).active.Some? then old(disk).active else old(disk).previous
      ensures history == old(history) + steps
      ensures forall i | 0 <= i < |steps| ::
        && steps[i].dirs == old(disk).dirs
        && (SamePointers(old(disk), steps[i])
            || (steps[i].previous == disk.previous
                && (steps[i].active == old(disk).active || steps[i].active == disk.active)))
    {
      steps := [];
      var current := disk.active;
      if current.Some? {
        steps := AtomicWrite(false, current.value, nonce);
      }
      ghost var more := AtomicWrite(true, Parsed(release), nonce);
      steps := steps + more;
    }

    /** Both directories of a release, the source first. */
    method ProvideTrees(release: ActiveRelease, pkg: Package, nonce: string) returns (ok: bool, ghost steps: seq<Disk>)
      requires pkg.runtime.Some? && Identifier(release.sourceId) && Identifier(release.runtimeId)
      modifies this
      ensures Additive(old(disk), disk)
      ensures history == old(history) + steps && AllAdditive(old(disk), steps)
      ensures ok <==> TreesValid(old(disk), release, pkg, platform)
      ensures ok ==> TreesOf(disk, release, platform) == ProvidedTrees(old(disk), release, pkg, platform)
      ensures LeavesTrees(old(disk), disk, release, pkg, platform)
    {
      var sourceDir, runtimeDir := SourceDir(release.sourceId, platform), RuntimeDir(release.runtimeId, platform);
      IdentifiersAreVisible(release.sourceId, platform);
      IdentifiersAreVisible(release.runtimeId, platform);
      ok, steps := EnsureDir(sourceDir, pkg.sourceArchive, t => SourceValid(t, pkg.serverRaw), nonce);
      if !ok { return; }
      ghost var mid := disk;
      ghost var more;
      ok, more := EnsureDir(runtimeDir, pkg.runtimeArchive, t => RuntimeValid(t, pkg.runtime.value.layout), nonce);
      AllAdditiveTrans(old(disk), mid, steps, more);
      AdditiveTrans(old(disk), mid, disk);
      steps := steps + more;
    }

    /** The trees of a release and its smoke test. */
    method TestRelease(release: ActiveRelease, pkg: Package, smoke: Installed -> bool, nonce: string)
      returns (r: Result<Installed>, ghost steps: seq<Disk>)
      requires pkg.runtime.Some? && Identifier(release.sourceId) && Identifier(release.runtimeId)
      modifies this
      ensures Additive(old(disk), disk)
      ensures history == old(history) + steps && AllAdditive(old(disk), steps)
      ensures r.Ok? <==>
        old(TreesValid(disk, release, pkg, platform) && smoke(ProvidedTrees(disk, release, pkg, platform)))
      ensures r.Ok? ==> r.value == ProvidedTrees(old(disk), release, pkg, platform)
      ensures r.Ok? ==> TreesOf(disk, release, platform) == r.value
      ensures LeavesTrees(old(disk), disk, release, pkg, platform)
    {
      var ok;
      ok, steps := ProvideTrees(release, pkg, nonce);
      if !ok { return Err("trees"), steps; }
      var newer := TreesOf(disk, release, platform);
      r := if smoke(newer) then Ok(newer) else Err("smoke test");
    }

    /** Moves the pointers on to a release whose trees are there. `d` and `before` are the disk before
        they were, and the steps since. */
    method PutIntoService(newer: Installed, nonce: string, ghost d: Disk, ghost before: seq<Disk>)
      returns (ghost steps: seq<Disk>)
      requires TreesOf(disk, newer.release, platform) == newer && Additive(d, disk) && AllAdditive(d, before)
      modifies this
      ensures Serves(d, disk, newer, platform)
      ensures history == old(history) + steps && AllMidInstall(d, before + steps, newer, platform)
    {
      ghost var mid := disk;
      steps := Activate(newer.release, nonce);
      forall i | 0 <= i < |steps| ensures MidInstall(mid, steps[i], newer, platform) {
        assert KeepsVisible(mid, steps[i]);
        if !SamePointers(mid, steps[i]) { assert TreesOf(steps[i], newer.release, platform) == newer; }
      }
      AllMidInstallTrans(d, mid, before, steps, newer, platform);
      ServesTrans(d, mid, disk, newer, platform);
    }

    /** The part after the checks of the package itself. */
    method InstallRelease(release: ActiveRelease, pkg: Package, smoke: Installed -> bool, nonce: string)
      returns (r: Result<Installed>, ghost steps: seq<Disk>)
      requires pkg.runtime.Some? && Identifier(release.sourceId) && Identifier(release.runtimeId)
      modifies this
      ensures history == old(history) + steps
      ensures r.Ok? <==>
        old(TreesValid(disk, release, pkg, platform) && smoke(ProvidedTrees(disk, release, pkg, platform)))
      ensures r.Ok? ==>
        && r.value == ProvidedTrees(old(disk), release, pkg, platform)
        && Serves(old(disk), disk, r.value, platform) && AllMidInstall(old(disk), steps, r.value, platform)
      ensures r.Err? ==> Additive(old(disk), disk) && AllAdditive(old(disk), steps)
      ensures r.Err? ==> LeavesTrees(old(disk), disk, release, pkg, platform)
    {
      r, steps := TestRelease(release, pkg, smoke, nonce);
      if r.Ok? {
        ghost var more := PutIntoService(r.value, nonce, old(disk), steps);
        Joined(old(history), steps, more);
        steps := steps + more;
      }
    }

    /** Succeeds exactly when the package is installable. Then the release is in service, the former
        one is the previous one, and until then every step leaves a resolving pointer resolving.
        Otherwise nothing in service is touched, but trees that were unpacked stay. */
    method InstallPayloads(pkg: Package, smoke: Installed -> bool, digest: Digest, nonce: string)
      returns (r: Result<Installed>, ghost steps: seq<Disk>)
      modifies this
      ensures history == old(history) + steps
      ensures r.Ok? <==> Installable(old(disk), pkg, smoke, digest, platform)
      ensures r.Ok? ==>
        && r.value == Candidate(old(disk), pkg, digest, platform) && Accepted(r.value, pkg, smoke, digest, platform)
        && Serves(old(disk), disk, r.value, platform) && AllMidInstall(old(disk), steps, r.value, platform)
        && ActiveOf(disk, platform) == Some(r.value) && !NeedsInstall(disk, pkg, digest, platform)
      ensures r.Err? ==> Additive(old(disk), disk) && AllAdditive(old(disk), steps)
      ensures r.Err? && Checked(pkg, platform) ==>
        LeavesTrees(old(disk), disk, Candidate(old(disk), pkg, digest, platform).release, pkg, platform)
    {
      steps := [];
      if pkg.server == None || pkg.runtime == None { return Err("manifest"), steps; }
      if !ManifestsValid(pkg.server.value, pkg.runtime.value, platform) { return Err("manifests"), steps; }
      if !pkg.archiveIntact { return Err("hash"), steps; }
      if !pkg.enoughSpace { return Err("space"), steps; }
      var release := ReleaseOf(pkg.server.value, pkg.runtime.value, digest(pkg.serverRaw));
      InstallableMeans(disk, pkg, smoke, digest, platform);
      r, steps := InstallRelease(release, pkg, smoke, nonce);
      if r.Ok? { AcceptedResolves(disk, r.value, pkg, smoke, digest, platform); }
    }

    // ---------------------------------------------------------------- going back, cleaning up

    /** The former release is in service again, and the failed one is the previous one. */
    method RestorePrevious(nonce: string) returns (r: Result<bool>, ghost steps: seq<Disk>)
      modifies this
      ensures history == old(history) + steps && disk.dirs == old(disk).dirs
      ensures r.Err? <==> ReadRelease(old(disk), old(disk).previous, platform).Err?
      ensures r == Ok(true) <==> PreviousOf(old(disk), platform).Some?
      ensures r != Ok(true) ==> disk == old(disk) && steps == []
      ensures r == Ok(true) ==>
        && disk.active == old(disk).previous && ActiveOf(disk, platform) == PreviousOf(old(disk), platform)
        && disk.previous == if old(disk).active.Some? then old(disk).active else old(disk).previous
      ensures forall i | 0 <= i < |steps| ::
        && steps[i].dirs == old(disk).dirs && steps[i].active in {old(disk).active, old(disk).previous}
        && steps[i].previous in {old(disk).previous, disk.previous}
    {
      steps := [];
      match ReadRelease(disk, disk.previous, platform)
      case Err(reason) => r := Err(reason);
      case Ok(None) => r := Ok(false);
      case Ok(Some(previous)) =>
        var current := disk.active;
        steps := AtomicWrite(true, Parsed(previous.release), nonce);
        if current.Some? {
          ghost var more := AtomicWrite(false, current.value, nonce);
          steps := steps + more;
        }
        r := Ok(true);
    }

    /** What the two pointers stand for stays; staging directories stay; the rest goes. */
    method PruneOldReleases() returns (ghost steps: seq<Disk>)
      modifies this
      ensures history == old(history) + steps && SamePointers(old(disk), disk)
      ensures var kept :=
          DirsOf(old(disk), old(disk).active, platform) + DirsOf(old(disk), old(disk).previous, platform);
        && disk.dirs == (map dir | dir in old(disk).dirs && (Hidden(dir.name) || dir in kept) :: old(disk).dirs[dir])
        && AllKeep(old(disk), steps, kept)
    {
      var kept := DirsOf(disk, disk.active, platform) + DirsOf(disk, disk.previous, platform);
      var doomed := set dir | dir in disk.dirs && !Hidden(dir.name) && dir !in kept;
      steps := RemoveAll(doomed, kept);
    }

    method RemoveAll(doomed: set<Dir>, ghost kept: set<Dir>) returns (ghost steps: seq<Disk>)
      requires doomed !! kept
      modifies this
      ensures history == old(history) + steps && AllKeep(old(disk), steps, kept)
      ensures SamePointers(old(disk), disk) && disk.dirs == old(disk).dirs - doomed
    {
      var todo := doomed;
      steps := [];
      while todo != {}
        invariant todo <= doomed && SamePointers(old(disk), disk)
        invariant forall x :: x in disk.dirs <==> x in old(disk).dirs && (x !in doomed || x in todo)
        invariant forall x | x in disk.dirs :: disk.dirs[x] == old(disk).dirs[x]
        invariant history == old(history) + steps && AllKeep(old(disk), steps, kept)
        decreases |todo|
      {
        var dir :| dir in todo;
        ghost var mid := disk;
        ghost var more := RemoveTree(dir);
        RemovalKeeps(old(disk), mid, more, dir, kept);
        todo := todo - {dir};
        steps := steps + more;
      }
    }
  }
}
