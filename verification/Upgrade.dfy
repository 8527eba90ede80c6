/** An upgrade of the local server as a whole: backup, installation, first start, and the way back
    when that start fails. */
module Upgrade {
  import opened Wrappers
  import opened Releases
  import opened ReleaseStore

  type Data = map<string, string>

  /** The files a backup covers. Nothing below depends on which they are. */
  const BACKUP_FILES: seq<string> :=
    ["data.db", "data.db-wal", "data.db-shm", "milvus.db", "config.env", "secrets.json", "catalog.json"]

  /** A committed backup directory: its manifest and the files. */
  datatype Backup = Backup(schema: int, files: seq<string>, contents: Data)

  /** What starting a release does: whether it gets healthy, and the data it leaves either way. The
      number tells the first start of an upgrade from the second. */
  type Server = (nat, Installed, Data) -> (bool, Data)

  // ---------------------------------------------------------------- backup and restore

  function Saved(covered: seq<string>, data: Data): Data { map n | n in data && n in covered :: data[n] }

  /** The saved files as they were, among them those that were not there; all others as they are. */
  function Restored(covered: seq<string>, data: Data, saved: Data): Data {
    (data - set n | n in covered) + saved
  }

  predicate ManifestOk(covered: seq<string>, b: Backup) {
    b.schema == 1 && forall n | n in b.files :: n in covered
  }

  /** Where copying the files of a backup back comes to an end. */
  function FirstMissing(b: Backup): (k: nat)
    ensures k <= |b.files| && forall i | 0 <= i < k :: b.files[i] in b.contents
    ensures k < |b.files| ==> b.files[k] !in b.contents
  {
    MissingFrom(b, 0)
  }

  function MissingFrom(b: Backup, i: nat): (k: nat)
    requires i <= |b.files|
    ensures i <= k <= |b.files| && forall j | i <= j < k :: b.files[j] in b.contents
    ensures k < |b.files| ==> b.files[k] !in b.contents
    decreases |b.files| - i
  {
    if i == |b.files| || b.files[i] !in b.contents then i else MissingFrom(b, i + 1)
  }

  /** The first `k` files. */
  function Copied(b: Backup, k: nat): Data
    requires k <= FirstMissing(b)
  {
    map n | n in b.files[..k] :: b.contents[n]
  }

  /** What there is once the files that are not listed are gone and the first `k` have been copied. */
  function RestoredUpTo(covered: seq<string>, data: Data, b: Backup, k: nat): Data
    requires k <= FirstMissing(b)
  {
    (data - set n | n in covered && n !in b.files) + Copied(b, k)
  }

  lemma NextCopied(base: Data, b: Backup, k: nat)
    requires k < FirstMissing(b)
    ensures base + Copied(b, k + 1) == (base + Copied(b, k))[b.files[k] := b.contents[b.files[k]]]
  {
    assert b.files[..k + 1] == b.files[..k] + [b.files[k]];
  }

  lemma NothingCopied(base: Data, b: Backup)
    ensures base + Copied(b, 0) == base
  {
  }

  /** With nothing missing that is the whole restoration. */
  lemma CompleteRestores(covered: seq<string>, data: Data, b: Backup)
    requires ManifestOk(covered, b) && FirstMissing(b) == |b.files|
    ensures RestoredUpTo(covered, data, b, |b.files|) == Restored(covered, data, map n | n in b.files :: b.contents[n])
  {
    assert b.files[..|b.files|] == b.files;
    var saved := map n | n in b.files :: b.contents[n];
    assert Copied(b, |b.files|) == saved;
    var t, u := RestoredUpTo(covered, data, b, |b.files|), Restored(covered, data, saved);
    forall x ensures x in t <==> x in u {
    }
  }

  predicate BackupTaken(covered: seq<string>, data: Data) {
    exists n :: n in covered && n in data
  }

  /** The part of the data an upgrade promises to bring back is the same. */
  ghost predicate SameSaved(covered: seq<string>, a: Data, b: Data) {
    forall n | n in covered :: (n in a <==> n in b) && (n in a ==> a[n] == b[n])
  }

  ghost predicate SameOthers(covered: seq<string>, a: Data, b: Data) {
    forall n | n !in covered :: (n in a <==> n in b) && (n in a ==> a[n] == b[n])
  }

  lemma RestoredMeans(covered: seq<string>, data: Data, before: Data)
    ensures SameSaved(covered, Restored(covered, data, Saved(covered, before)), before)
    ensures SameOthers(covered, Restored(covered, data, Saved(covered, before)), data)
  {
  }

  /** Nothing is attempted: a file is missing or the old server cannot be stopped, the platform has
      no runtime, or an upgrade cannot make its backup. */
  ghost predicate Refused(covered: seq<string>, blocked: bool, d: Disk, data: Data, stampUsed: bool, p: Platform) {
    blocked || p.target == "unsupported" || (ActiveOf(d, p).Some? && BackupTaken(covered, data) && stampUsed)
  }

  /** The package could not be installed: the pointers are where they were, and what they resolve to
      has been started again. */
  ghost predicate Fallback(d: Disk, t: Disk, before: Data, after: Data, server: Server, p: Platform) {
    && Additive(d, t)
    && after == if ActiveOf(t, p).Some? then server(0, ActiveOf(t, p).value, before).1 else before
  }

  /** The data the former release is given back after the new one has failed on it. */
  function HandedBack(covered: seq<string>, before: Data, failed: Data): Data {
    if BackupTaken(covered, before) then Restored(covered, failed, Saved(covered, before)) else failed
  }

  /** The document the previous pointer holds once a new release is in service. */
  function Former(d: Disk): Option<Doc> {
    if d.active.Some? then d.active else d.previous
  }

  /** After the new release has failed to start: what the former document resolves to is in service
      again and started once more, and the release that failed is the previous one. An upgrade's
      former release is the one that was in service, and it gets its data back; without one there
      was no backup. If the former document does not resolve, the new release stays in place. */
  ghost predicate RolledBack(covered: seq<string>, d: Disk, t: Disk, newer: Installed, before: Data, after: Data,
                             server: Server, p: Platform) {
    var failed := server(0, newer, before).1;
    var former := Resolved(t, Former(d), p);
    && (ActiveOf(d, p).Some? ==> former == ActiveOf(d, p))
    && if former == None then
         ActiveOf(t, p) == Some(newer) && t.previous == Former(d) && after == failed
       else
         && t.active == Former(d) && PreviousOf(t, p) == Some(newer)
         && var data := if ActiveOf(d, p).Some? then HandedBack(covered, before, failed) else failed;
            after == server(1, former.value, data).1
  }

  /** How an attempt that was made has ended, whatever the package and the servers are like. */
  ghost predicate Tried(covered: seq<string>, d: Disk, t: Disk, before: Data, after: Data, r: Result<()>,
                        pkg: Package, smoke: Installed -> bool, digest: Digest, server: Server, p: Platform) {
    if !Installable(d, pkg, smoke, digest, p) then r.Err? && Fallback(d, t, before, after, server, p)
    else Started(covered, d, t, before, after, r, Candidate(d, pkg, digest, p), server, p)
  }

  /** The new release is in service, the one before it is still there whole, and nothing else is but
      staging directories. */
  ghost predicate TidiedUp(d: Disk, t: Disk, newer: Installed, p: Platform) {
    && ActiveOf(t, p) == Some(newer) && t.previous == Former(d)
    && (ActiveOf(d, p).Some? ==> PreviousOf(t, p) == ActiveOf(d, p))
    && forall dir | dir in t.dirs && !Hidden(dir.name) :: dir in DirsOf(t, t.active, p) + DirsOf(t, t.previous, p)
  }

  /** The new release is installed: it is in service if it starts; if not, there is a way back. */
  ghost predicate Started(covered: seq<string>, d: Disk, t: Disk, before: Data, after: Data, r: Result<()>,
                          newer: Installed, server: Server, p: Platform) {
    if server(0, newer, before).0 then r.Ok? && TidiedUp(d, t, newer, p) && after == server(0, newer, before).1
    else r.Err? && RolledBack(covered, d, t, newer, before, after, server, p)
  }

  /** What "pre-upgrade state" is worth, exactly: the saved files are as they were before if a backup
      was made, or if there were none and the failed release has made none. All other files are
      as the failed release left them. */
  lemma HandedBackExactly(covered: seq<string>, before: Data, failed: Data)
    ensures SameSaved(covered, HandedBack(covered, before, failed), before)
       <==> BackupTaken(covered, before) || !BackupTaken(covered, failed)
    ensures SameOthers(covered, HandedBack(covered, before, failed), failed)
  {
  }

  /** What can be promised before the upgrade, whatever the failed release does: the saved files come
      back exactly if there is one of them to save. */
  lemma PromiseBeforehand(covered: seq<string>, before: Data)
    requires covered != []
    ensures (forall failed :: SameSaved(covered, HandedBack(covered, before, failed), before))
       <==> BackupTaken(covered, before)
  {
    if BackupTaken(covered, before) {
      forall failed ensures SameSaved(covered, HandedBack(covered, before, failed), before) {
        HandedBackExactly(covered, before, failed);
      }
    } else {
      var failed: Data := map[covered[0] := ""];
      assert covered[0] in covered && covered[0] in failed;
      HandedBackExactly(covered, before, failed);
    }
  }

  /** What resolves goes on resolving, and to the same directories. */
  lemma PrunedKeeps(m: Disk, t: Disk, kept: set<Dir>, p: Platform)
    requires SamePointers(m, t) && KeepsDirs(m, t, kept) && kept == DirsOf(m, m.active, p) + DirsOf(m, m.previous, p)
    ensures ActiveOf(m, p).Some? ==>
              ActiveOf(t, p) == ActiveOf(m, p) && DirsOf(t, t.active, p) == DirsOf(m, m.active, p)
    ensures PreviousOf(m, p).Some? ==>
              PreviousOf(t, p) == PreviousOf(m, p) && DirsOf(t, t.previous, p) == DirsOf(m, m.previous, p)
  {
    if ActiveOf(m, p).Some? { KeptDirsResolve(m, t, m.active, kept, p); }
    if PreviousOf(m, p).Some? { KeptDirsResolve(m, t, m.previous, kept, p); }
  }

  class Manager {
    const store: Store
    const covered: seq<string>
    var data: Data
    var backups: map<string, Backup>

    constructor (store: Store, data: Data)
      ensures this.store == store && this.data == data && backups == map[] && covered == BACKUP_FILES
    {
      this.store, this.data, backups, covered := store, data, map[], BACKUP_FILES;
    }

    /** The files that exist are copied; with none of them no backup is made. */
    method BackupLocalData(stamp: string) returns (r: Result<Option<string>>)
      modifies this`backups
      ensures r.Err? <==> BackupTaken(covered, data) && stamp in old(backups)
      ensures r == Ok(None) <==> !BackupTaken(covered, data)
      ensures !(r.Ok? && r.value.Some?) ==> backups == old(backups)
      ensures r.Ok? && r.value.Some? ==>
        r.value == Some(stamp) && stamp in backups && Faithful(backups[stamp], data)
    {
      var files: seq<string> := [];
      for i := 0 to |covered|
        invariant forall n :: n in files <==> n in covered[..i] && n in data
      {
        assert covered[..i + 1] == covered[..i] + [covered[i]];
        if covered[i] in data { files := files + [covered[i]]; }
      }
      assert covered[..|covered|] == covered;
      if files == [] { return Ok(None); }
      assert files[0] in covered && files[0] in data;
      var contents: Data := map[];
      for i := 0 to |files|
        invariant contents == map n | n in files[..i] :: data[n]
      {
        assert files[..i + 1] == files[..i] + [files[i]];
        contents := contents[files[i] := data[files[i]]];
      }
      assert files[..|files|] == files;
      if stamp in backups { return Err("rename"); }
      backups := backups[stamp := Backup(1, files, contents)];
      r := Ok(Some(stamp));
    }

    ghost predicate Faithful(b: Backup, d: Data) {
      b.schema == 1 && b.contents == Saved(covered, d) && forall n :: n in b.files <==> n in Saved(covered, d)
    }

    /** The manifest is checked first; then the copying stops at the first file the backup lacks. */
    method RestoreLocalData(b: Backup) returns (r: Result<()>)
      modifies this`data
      ensures b.schema != 1 || (exists n | n in b.files :: n !in covered) ==> r.Err? && data == old(data)
      ensures ManifestOk(covered, b) ==>
        && data == RestoredUpTo(covered, old(data), b, FirstMissing(b)) && (r.Ok? <==> FirstMissing(b) == |b.files|)
    {
      if b.schema != 1 || exists n | n in b.files :: n !in covered { return Err("manifest"); }
      RemoveUnlisted(b.files);
      var copied := CopyBack(b);
      assert data == RestoredUpTo(covered, old(data), b, FirstMissing(b));
      r := if copied then Ok(()) else Err("copy");
    }

    /** Of the files a backup covers, those the manifest does not list go. */
    method RemoveUnlisted(files: seq<string>)
      modifies this`data
      ensures forall x :: x in data <==> x in old(data) && !(x in covered && x !in files)
      ensures forall x | x in data :: data[x] == old(data)[x]
    {
      for i := 0 to |covered|
        invariant forall x :: x in data <==> x in old(data) && !(x in covered[..i] && x !in files)
        invariant forall x | x in data :: data[x] == old(data)[x]
      {
        assert covered[..i + 1] == covered[..i] + [covered[i]];
        if covered[i] !in files { data := data - {covered[i]}; }
      }
      assert covered[..|covered|] == covered;
    }

    method CopyBack(b: Backup) returns (all: bool)
      modifies this`data
      ensures all <==> FirstMissing(b) == |b.files|
      ensures data == old(data) + Copied(b, FirstMissing(b))
    {
      ghost var base := data;
      NothingCopied(base, b);
      for i := 0 to |b.files|
        invariant i <= FirstMissing(b) && data == base + Copied(b, i)
      {
        if b.files[i] !in b.contents {
          assert FirstMissing(b) == i;
          return false;
        }
        NextCopied(base, b, i);
        data := data[b.files[i] := b.contents[b.files[i]]];
      }
      all := true;
    }

    // ---------------------------------------------------------------- the upgrade

    /** Only what resolves can be started. */
    method StartServer(server: Server, attempt: nat) returns (ok: bool)
      modifies this`data
      ensures var i := ActiveOf(store.disk, store.platform);
        if i == None then !ok && data == old(data) else (ok, data) == server(attempt, i.value, old(data))
    {
      var i := ActiveOf(store.disk, store.platform);
      if i == None { return false; }
      var outcome := server(attempt, i.value, data);
      data := outcome.1;
      ok := outcome.0;
    }

    /** With a backup of what was there before, that is what there is again. */
    method RestoreIf(backup: Option<string>, ghost before: Data)
      requires backup.Some? ==> backup.value in backups && Faithful(backups[backup.value], before)
      modifies this`data
      ensures data == if backup.Some? then Restored(covered, old(data), Saved(covered, before)) else old(data)
    {
      if backup.Some? {
        var b := backups[backup.value];
        assert forall n | n in b.files :: n in Saved(covered, before);
        CompleteRestores(covered, data, b);
        var done := RestoreLocalData(b);
        assert (map n | n in b.files :: b.contents[n]) == Saved(covered, before);
      }
    }

    /** Back to the release before, if there is one, with the data it had, and another start. */
    method RollBack(upgrading: bool, backup: Option<string>, ghost d: Disk, ghost newer: Installed, server: Server,
                    ghost before: Data, nonce: string)
      returns (r: Result<()>)
      requires Serves(d, store.disk, newer, store.platform) && ActiveOf(store.disk, store.platform) == Some(newer)
      requires upgrading == ActiveOf(d, store.platform).Some? && data == server(0, newer, before).1
      requires if upgrading then backup.Some? <==> BackupTaken(covered, before) else backup == None
      requires backup.Some? ==> backup.value in backups && Faithful(backups[backup.value], before)
      modifies this`data, store
      ensures r.Err?
      ensures RolledBack(covered, d, store.disk, newer, before, data, server, store.platform)
    {
      if upgrading { KeptResolves(d, store.disk, d.active, store.platform); }
      ghost var t := store.disk;
      var restored := Restore(d, newer, nonce);
      if restored {
        RestoreIf(backup, before);
        var _ := StartServer(server, 1);
      }
      r := Err("start");
    }

    /** The way back of the pointers. */
    method Restore(ghost d: Disk, ghost newer: Installed, nonce: string) returns (restored: bool)
      requires Serves(d, store.disk, newer, store.platform) && ActiveOf(store.disk, store.platform) == Some(newer)
      modifies store
      ensures Resolved(store.disk, Former(d), store.platform) == Resolved(old(store.disk), Former(d), store.platform)
      ensures restored <==> Resolved(store.disk, Former(d), store.platform).Some?
      ensures if restored
        then store.disk.active == Former(d) && PreviousOf(store.disk, store.platform) == Some(newer)
        else store.disk == old(store.disk)
    {
      ghost var t := store.disk;
      var r, steps := store.RestorePrevious(nonce);
      restored := r == Ok(true);
      KeptResolves(t, store.disk, t.active, store.platform);
    }

    /** Pruning leaves what the pointers resolve to alone, and nothing else. */
    method Prune(ghost d: Disk, ghost newer: Installed)
      requires Serves(d, store.disk, newer, store.platform) && ActiveOf(store.disk, store.platform) == Some(newer)
      modifies store
      ensures TidiedUp(d, store.disk, newer, store.platform)
    {
      ghost var m := store.disk;
      ghost var p := store.platform;
      ghost var steps := store.PruneOldReleases();
      ghost var kept := DirsOf(m, m.active, p) + DirsOf(m, m.previous, p);
      PrunedKeeps(m, store.disk, kept, p);
      if ActiveOf(d, p).Some? { KeptResolves(d, m, d.active, p); }
    }

    /** A new release is tried; if it does not start, an upgrade takes everything back. */
    method RunInstall(pkg: Package, smoke: Installed -> bool, digest: Digest, server: Server,
                      stamp: string, nonce: string, blocked: bool)
      returns (r: Result<()>)
      modifies this, store
      ensures if Refused(covered, blocked, old(store.disk), old(data), stamp in old(backups), store.platform)
        then r.Err? && store.disk == old(store.disk) && data == old(data)
        else Tried(covered, old(store.disk), store.disk, old(data), data, r, pkg, smoke, digest, server,
                   store.platform)
    {
      if blocked || store.platform.target == "unsupported" { return Err("stop"); }
      var upgrading := ActiveOf(store.disk, store.platform).Some?;
      var backup := BackupIf(upgrading, stamp);
      if backup.Err? { return Err("backup"); }
      r := InstallAndStart(upgrading, backup.value, pkg, smoke, digest, server, nonce);
    }

    /** Only an upgrade makes a backup. */
    method BackupIf(upgrading: bool, stamp: string) returns (r: Result<Option<string>>)
      modifies this`backups
      ensures r.Err? <==> upgrading && BackupTaken(covered, data) && stamp in old(backups)
      ensures r.Ok? ==> if upgrading then r.value.Some? <==> BackupTaken(covered, data) else r.value == None
      ensures r.Ok? && r.value.Some? ==> r.value.value in backups && Faithful(backups[r.value.value], data)
    {
      r := Ok(None);
      if upgrading { r := BackupLocalData(stamp); }
    }

    method InstallAndStart(upgrading: bool, backup: Option<string>, pkg: Package, smoke: Installed -> bool,
                           digest: Digest, server: Server, nonce: string)
      returns (r: Result<()>)
      requires upgrading == ActiveOf(store.disk, store.platform).Some?
      requires if upgrading then backup.Some? <==> BackupTaken(covered, data) else backup == None
      requires backup.Some? ==> backup.value in backups && Faithful(backups[backup.value], data)
      modifies this`data, store
      ensures Tried(covered, old(store.disk), store.disk, old(data), data, r, pkg, smoke, digest, server,
                    store.platform)
    {
      ghost var d := store.disk;
      var installed, steps := store.InstallPayloads(pkg, smoke, digest, nonce);
      if installed.Err? {
        FallBack(d, server);
        r := Err("install");
      } else {
        r := StartOrRollBack(upgrading, backup, d, installed.value, server, nonce);
      }
    }

    /** The installation failed; what is in service is started again. */
    method FallBack(ghost d: Disk, server: Server)
      requires Additive(d, store.disk)
      modifies this`data
      ensures Fallback(d, store.disk, old(data), data, server, store.platform)
    {
      if ActiveOf(store.disk, store.platform).Some? { var _ := StartServer(server, 0); }
    }

    method StartOrRollBack(upgrading: bool, backup: Option<string>, ghost d: Disk, ghost newer: Installed,
                           server: Server, nonce: string)
      returns (r: Result<()>)
      requires Serves(d, store.disk, newer, store.platform) && ActiveOf(store.disk, store.platform) == Some(newer)
      requires upgrading == ActiveOf(d, store.platform).Some?
      requires if upgrading then backup.Some? <==> BackupTaken(covered, data) else backup == None
      requires backup.Some? ==> backup.value in backups && Faithful(backups[backup.value], data)
      modifies this`data, store
      ensures Started(covered, d, store.disk, old(data), data, r, newer, server, store.platform)
    {
      ghost var before := data;
      var started := StartServer(server, 0);
      if started {
        Prune(d, newer);
        r := Ok(());
      } else {
        r := RollBack(upgrading, backup, d, newer, server, before, nonce);
      }
    }
  }

  /** What an upgrade is for: a package that can be installed, whose server gets healthy, is in service
      afterwards, with the release before it kept for a way back. */
  method UpgradeSucceeds(m: Manager, pkg: Package, smoke: Installed -> bool, digest: Digest, server: Server,
                         stamp: string, nonce: string)
    returns (r: Result<()>)
    requires m.store.platform.target != "unsupported" && stamp !in m.backups
    requires Installable(m.store.disk, pkg, smoke, digest, m.store.platform)
    requires server(0, Candidate(m.store.disk, pkg, digest, m.store.platform), m.data).0
    modifies m, m.store
    ensures r.Ok?
    ensures TidiedUp(old(m.store.disk), m.store.disk, Candidate(old(m.store.disk), pkg, digest, m.store.platform),
                     m.store.platform)
  {
    r := m.RunInstall(pkg, smoke, digest, server, stamp, nonce, false);
  }

  /** And when that server does not get healthy, the release that was in service is again, on the data it
      had, if a backup could be made. */
  method UpgradeIsTakenBack(m: Manager, pkg: Package, smoke: Installed -> bool, digest: Digest, server: Server,
                            stamp: string, nonce: string)
    returns (r: Result<()>)
    requires m.store.platform.target != "unsupported" && stamp !in m.backups
    requires Installable(m.store.disk, pkg, smoke, digest, m.store.platform)
    requires !server(0, Candidate(m.store.disk, pkg, digest, m.store.platform), m.data).0
    requires ActiveOf(m.store.disk, m.store.platform).Some? && BackupTaken(m.covered, m.data)
    modifies m, m.store
    ensures r.Err? && ActiveOf(m.store.disk, m.store.platform) == ActiveOf(old(m.store.disk), m.store.platform)
    ensures exists data: Data ::
      SameSaved(m.covered, data, old(m.data))
      && m.data == server(1, ActiveOf(old(m.store.disk), m.store.platform).value, data).1
  {
    ghost var d, before, p := m.store.disk, m.data, m.store.platform;
    ghost var newer := Candidate(d, pkg, digest, p);
    r := m.RunInstall(pkg, smoke, digest, server, stamp, nonce, false);
    ghost var failed := server(0, newer, before).1;
    HandedBackExactly(m.covered, before, failed);
    assert SameSaved(m.covered, HandedBack(m.covered, before, failed), before);
  }

  /** And a package that cannot be installed leaves in service what was, started again on its own data. */
  method FailedInstallKeepsService(m: Manager, pkg: Package, smoke: Installed -> bool, digest: Digest,
                                   server: Server, stamp: string, nonce: string)
    returns (r: Result<()>)
    requires m.store.platform.target != "unsupported" && stamp !in m.backups
    requires !Installable(m.store.disk, pkg, smoke, digest, m.store.platform)
    requires ActiveOf(m.store.disk, m.store.platform).Some?
    modifies m, m.store
    ensures r.Err? && ActiveOf(m.store.disk, m.store.platform) == ActiveOf(old(m.store.disk), m.store.platform)
    ensures m.data == server(0, ActiveOf(old(m.store.disk), m.store.platform).value, old(m.data)).1
  {
    ghost var d := m.store.disk;
    r := m.RunInstall(pkg, smoke, digest, server, stamp, nonce, false);
    KeptResolves(d, m.store.disk, d.active, m.store.platform);
  }
}
