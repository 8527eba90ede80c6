/** Whole lives of a release store: installations, rollbacks and clean-ups in any order, each cut
    short by a crash or not. */
module ReleaseRuns {
  import opened Wrappers
  import opened Releases
  import opened ReleaseStore

  datatype Op = Install(pkg: Package, smoke: Installed -> bool, nonce: string) | Restore(nonce: string) | Prune

  /** `crash` is the step after which the machine stops, if the operation takes as many. */
  datatype Turn = Turn(op: Op, crash: Option<nat>)

  /** A document that resolves on no disk. */
  predicate Dead(doc: Doc) {
    doc.Garbled? || !WellFormed(doc.release)
  }

  /** The previous pointer names a runtime directory that the release in service runs from and that
      lacks its files. Nothing replaces that directory while the pointers stand like this. */
  ghost predicate Stuck(d: Disk, p: Platform) {
    && d.previous.Some? && !Dead(d.previous.value) && ActiveOf(d, p).Some?
    && var stray, runs := d.previous.value.release, ActiveOf(d, p).value;
       && RuntimeDir(stray.runtimeId, p) == RuntimeDir(runs.release.runtimeId, p)
       && !(stray.executable in runs.runtime && stray.smokeTest in runs.runtime)
  }

  /** What is known of a pointer file: it is not there, it never resolves, it resolves to a trusted
      release, or it still holds one of the documents `strays`. */
  ghost predicate Known(d: Disk, pointer: Option<Doc>, trusted: set<Installed>, strays: set<Doc>, p: Platform) {
    pointer.Some? ==>
      || Dead(pointer.value) || pointer.value in strays
      || (Resolved(d, pointer, p).Some? && Resolved(d, pointer, p).value in trusted)
  }

  ghost predicate Sound(d: Disk, trusted: set<Installed>, strays: set<Doc>, p: Platform) {
    Known(d, d.active, trusted, strays, p) && (Known(d, d.previous, trusted, strays, p) || Stuck(d, p))
  }

  /** What is in service stays in service or is replaced: the active pointer goes on resolving. */
  ghost predicate StaysLive(d: Disk, s: Disk, p: Platform) {
    ActiveOf(d, p).Some? ==> ActiveOf(s, p).Some?
  }

  ghost predicate AllSound(d: Disk, states: seq<Disk>, trusted: set<Installed>, strays: set<Doc>, p: Platform) {
    forall i | 0 <= i < |states| :: Sound(states[i], trusted, strays, p) && StaysLive(d, states[i], p)
  }

  /** Does not resolve, but might with other directories. */
  ghost predicate Stray(d: Disk, pointer: Option<Doc>, p: Platform) {
    pointer.Some? && !Dead(pointer.value) && Resolved(d, pointer, p) == None
  }

  /** The documents of pointer files that do not resolve and may come to. */
  ghost function Strays(d: Disk, p: Platform): set<Doc> {
    (if Stray(d, d.active, p) then {d.active.value} else {})
    + if Stray(d, d.previous, p) && !Stuck(d, p) then {d.previous.value} else {}
  }

  /** The releases the pointer files resolve to. */
  ghost function InPlace(d: Disk, p: Platform): set<Installed> {
    (if ActiveOf(d, p).Some? then {ActiveOf(d, p).value} else {})
    + if PreviousOf(d, p).Some? then {PreviousOf(d, p).value} else {}
  }

  lemma StartIsSound(d: Disk, p: Platform)
    ensures Sound(d, InPlace(d, p), Strays(d, p), p)
  {
  }

  lemma PointerKept(d: Disk, t: Disk, pointer: Option<Doc>, trusted: set<Installed>, strays: set<Doc>, p: Platform)
    requires KeepsVisible(d, t) && Known(d, pointer, trusted, strays, p)
    ensures Known(t, pointer, trusted, strays, p)
    ensures Resolved(d, pointer, p).Some? ==> Resolved(t, pointer, p).Some?
  {
    if Resolved(d, pointer, p).Some? { KeptResolves(d, t, pointer, p); }
  }

  lemma PreviousKept(d: Disk, s: Disk, trusted: set<Installed>, strays: set<Doc>, p: Platform)
    requires Sound(d, trusted, strays, p) && KeepsVisible(d, s)
    ensures SamePointers(d, s) ==> Known(s, s.previous, trusted, strays, p) || Stuck(s, p)
    ensures Known(d, d.previous, trusted, strays, p) ==> Known(s, d.previous, trusted, strays, p)
  {
    if Known(d, d.previous, trusted, strays, p) { PointerKept(d, s, d.previous, trusted, strays, p); }
    else { KeptResolves(d, s, d.active, p); }
  }

  lemma AdditiveSound(d: Disk, s: Disk, trusted: set<Installed>, strays: set<Doc>, p: Platform)
    requires Sound(d, trusted, strays, p) && Additive(d, s)
    ensures Sound(s, trusted, strays, p) && StaysLive(d, s, p)
  {
    PointerKept(d, s, d.active, trusted, strays, p);
    PreviousKept(d, s, trusted, strays, p);
  }

  lemma MidInstallSound(d: Disk, s: Disk, newer: Installed, op: Op, trusted: set<Installed>, strays: set<Doc>,
                        digest: Digest, p: Platform)
    requires Sound(d, trusted, strays, p) && MidInstall(d, s, newer, p) && newer in trusted
    requires AcceptedBy(newer, op, digest, p)
    ensures Sound(s, trusted, strays, p) && StaysLive(d, s, p)
  {
    PointerKept(d, s, d.active, trusted, strays, p);
    PreviousKept(d, s, trusted, strays, p);
    if !SamePointers(d, s) { AcceptedResolves(s, newer, op.pkg, op.smoke, digest, p); }
  }

  lemma PointingSound(d: Disk, s: Disk, trusted: set<Installed>, strays: set<Doc>, p: Platform)
    requires Sound(d, trusted, strays, p) && PreviousOf(d, p).Some?
    requires s.dirs == d.dirs && s.active in {d.active, d.previous} && s.previous in {d.active, d.previous}
    ensures Sound(s, trusted, strays, p) && StaysLive(d, s, p)
  {
  }

  lemma PrunedPointer(d: Disk, s: Disk, pointer: Option<Doc>, kept: set<Dir>, trusted: set<Installed>,
                      strays: set<Doc>, p: Platform)
    requires Known(d, pointer, trusted, strays, p) && KeepsDirs(d, s, kept) && DirsOf(d, pointer, p) <= kept
    ensures Known(s, pointer, trusted, strays, p)
    ensures Resolved(d, pointer, p).Some? ==> Resolved(s, pointer, p).Some?
  {
    if Resolved(d, pointer, p).Some? { KeptDirsResolve(d, s, pointer, kept, p); }
  }

  lemma PruneSound(d: Disk, s: Disk, kept: set<Dir>, trusted: set<Installed>, strays: set<Doc>, p: Platform)
    requires Sound(d, trusted, strays, p) && SamePointers(d, s) && KeepsDirs(d, s, kept)
    requires DirsOf(d, d.active, p) + DirsOf(d, d.previous, p) <= kept
    ensures Sound(s, trusted, strays, p) && StaysLive(d, s, p)
  {
    PrunedPointer(d, s, d.active, kept, trusted, strays, p);
    if Known(d, d.previous, trusted, strays, p) { PrunedPointer(d, s, d.previous, kept, trusted, strays, p); }
    else { KeptDirsResolve(d, s, d.active, kept, p); }
  }

  /** A release an installation of this run has accepted: manifests, trees and smoke test. */
  ghost predicate AcceptedInRun(i: Installed, turns: seq<Turn>, digest: Digest, p: Platform) {
    exists k :: 0 <= k < |turns| && AcceptedBy(i, turns[k].op, digest, p)
  }

  ghost predicate AcceptedBy(i: Installed, op: Op, digest: Digest, p: Platform) {
    op.Install? && Accepted(i, op.pkg, op.smoke, digest, p)
  }

  // ---------------------------------------------------------------- one operation

  lemma InstallStatesSound(d: Disk, steps: seq<Disk>, t: Disk, r: Result<Installed>, op: Op, trusted: set<Installed>,
                           strays: set<Doc>, digest: Digest, p: Platform)
    requires Sound(d, trusted, strays, p) && op.Install?
    requires r.Ok? ==> r.value in trusted && AcceptedBy(r.value, op, digest, p)
    requires r.Ok? ==> MidInstall(d, t, r.value, p) && AllMidInstall(d, steps, r.value, p)
    requires r.Err? ==> Additive(d, t) && AllAdditive(d, steps)
    ensures AllSound(d, steps + [t], trusted, strays, p)
  {
    var states := steps + [t];
    forall i | 0 <= i < |states| ensures Sound(states[i], trusted, strays, p) && StaysLive(d, states[i], p) {
      if r.Ok? {
        assert MidInstall(d, states[i], r.value, p);
        MidInstallSound(d, states[i], r.value, op, trusted, strays, digest, p);
      } else {
        assert Additive(d, states[i]);
        AdditiveSound(d, states[i], trusted, strays, p);
      }
    }
  }

  lemma MoreTrust(d: Disk, trusted: set<Installed>, more: set<Installed>, strays: set<Doc>, p: Platform)
    requires Sound(d, trusted, strays, p) && trusted <= more
    ensures Sound(d, more, strays, p)
  {
  }

  lemma ServesIsMidInstall(d: Disk, t: Disk, newer: Installed, p: Platform)
    requires Serves(d, t, newer, p)
    ensures MidInstall(d, t, newer, p)
  {
  }

  /** An installation, as far as the pointers are concerned. */
  method TryInstall(store: Store, op: Op, digest: Digest) returns (r: Result<Installed>, ghost steps: seq<Disk>)
    requires op.Install?
    modifies store
    ensures store.history == old(store.history) + steps
    ensures r.Ok? ==> AcceptedBy(r.value, op, digest, store.platform)
    ensures r.Ok? ==> MidInstall(old(store.disk), store.disk, r.value, store.platform)
    ensures r.Ok? ==> AllMidInstall(old(store.disk), steps, r.value, store.platform)
    ensures r.Err? ==> Additive(old(store.disk), store.disk) && AllAdditive(old(store.disk), steps)
  {
    ghost var d := store.disk;
    r, steps := store.InstallPayloads(op.pkg, op.smoke, digest, op.nonce);
    if r.Ok? { ServesIsMidInstall(d, store.disk, r.value, store.platform); }
  }

  method PerformInstall(store: Store, op: Op, ghost trusted: set<Installed>, ghost strays: set<Doc>, digest: Digest)
    returns (ghost steps: seq<Disk>, ghost after: set<Installed>)
    requires op.Install? && Sound(store.disk, trusted, strays, store.platform)
    modifies store
    ensures store.history == old(store.history) + steps
    ensures trusted <= after && forall i | i in after - trusted :: AcceptedBy(i, op, digest, store.platform)
    ensures AllSound(old(store.disk), steps + [store.disk], after, strays, store.platform)
  {
    ghost var d, p := store.disk, store.platform;
    var r;
    r, steps := TryInstall(store, op, digest);
    after := if r.Ok? then trusted + {r.value} else trusted;
    MoreTrust(d, trusted, after, strays, p);
    InstallStatesSound(d, steps, store.disk, r, op, after, strays, digest, p);
  }

  method PerformRestore(store: Store, nonce: string, ghost trusted: set<Installed>, ghost strays: set<Doc>)
    returns (ghost steps: seq<Disk>)
    requires Sound(store.disk, trusted, strays, store.platform)
    modifies store
    ensures store.history == old(store.history) + steps
    ensures AllSound(old(store.disk), steps + [store.disk], trusted, strays, store.platform)
  {
    ghost var d, p := store.disk, store.platform;
    var r;
    r, steps := store.RestorePrevious(nonce);
    ghost var states := steps + [store.disk];
    forall i | 0 <= i < |states| ensures Sound(states[i], trusted, strays, p) && StaysLive(d, states[i], p) {
      if r == Ok(true) { PointingSound(d, states[i], trusted, strays, p); }
    }
  }

  method PerformPrune(store: Store, ghost trusted: set<Installed>, ghost strays: set<Doc>)
    returns (ghost steps: seq<Disk>)
    requires Sound(store.disk, trusted, strays, store.platform)
    modifies store
    ensures store.history == old(store.history) + steps
    ensures AllSound(old(store.disk), steps + [store.disk], trusted, strays, store.platform)
  {
    ghost var d, p := store.disk, store.platform;
    ghost var kept := DirsOf(d, d.active, p) + DirsOf(d, d.previous, p);
    steps := store.PruneOldReleases();
    ghost var states := steps + [store.disk];
    assert KeepsDirs(d, store.disk, kept);
    forall i | 0 <= i < |states| ensures Sound(states[i], trusted, strays, p) && StaysLive(d, states[i], p) {
      assert SamePointers(d, states[i]) && KeepsDirs(d, states[i], kept);
      PruneSound(d, states[i], kept, trusted, strays, p);
    }
  }

  method Perform(store: Store, op: Op, ghost trusted: set<Installed>, ghost strays: set<Doc>, digest: Digest)
    returns (ghost steps: seq<Disk>, ghost after: set<Installed>)
    requires Sound(store.disk, trusted, strays, store.platform)
    modifies store
    ensures store.history == old(store.history) + steps
    ensures trusted <= after && forall i | i in after - trusted :: AcceptedBy(i, op, digest, store.platform)
    ensures AllSound(old(store.disk), steps + [store.disk], after, strays, store.platform)
  {
    match op {
      case Install(_, _, _) => steps, after := PerformInstall(store, op, trusted, strays, digest);
      case Restore(nonce) => steps := PerformRestore(store, nonce, trusted, strays); after := trusted;
      case Prune => steps := PerformPrune(store, trusted, strays); after := trusted;
    }
  }

  // ---------------------------------------------------------------- whole lives

  /** What a life guarantees of each of its states, from any disk at all: if a release was in service at
      the start then one is; and what is in service was in a pointer file that resolved at the start,
      or has been accepted in this life, or is the record of a pointer file that did not resolve at
      the start, was not stuck, and does now. */
  ghost predicate Guaranteed(start: Disk, s: Disk, turns: seq<Turn>, digest: Digest, p: Platform) {
    && StaysLive(start, s, p)
    && (ActiveOf(s, p).Some? ==>
          || ActiveOf(s, p).value in InPlace(start, p)
          || AcceptedInRun(ActiveOf(s, p).value, turns, digest, p)
          || s.active.value in Strays(start, p))
  }

  /** So much for every disk, every sequence of operations and every crash. */
  method Live(store: Store, turns: seq<Turn>, digest: Digest)
    requires store.history == []
    modifies store
    ensures forall i | 0 <= i < |store.history| ::
      Guaranteed(old(store.disk), store.history[i], turns, digest, store.platform)
    ensures Guaranteed(old(store.disk), store.disk, turns, digest, store.platform)
  {
    ghost var start, p := store.disk, store.platform;
    ghost var trusted, strays := InPlace(start, p), Strays(start, p);
    StartIsSound(start, p);
    for k := 0 to |turns|
      invariant AllSound(start, store.history + [store.disk], trusted, strays, p)
      invariant forall i | i in trusted :: i in InPlace(start, p) || AcceptedInRun(i, turns, digest, p)
    {
      trusted := TakeTurn(store, turns, k, digest, trusted, strays, start);
    }
    SoundIsGuaranteed(start, store.history, store.disk, turns, trusted, digest, p);
  }

  lemma SoundIsGuaranteed(start: Disk, history: seq<Disk>, last: Disk, turns: seq<Turn>, trusted: set<Installed>,
                          digest: Digest, p: Platform)
    requires AllSound(start, history + [last], trusted, Strays(start, p), p)
    requires forall i | i in trusted :: i in InPlace(start, p) || AcceptedInRun(i, turns, digest, p)
    ensures forall i | 0 <= i < |history| :: Guaranteed(start, history[i], turns, digest, p)
    ensures Guaranteed(start, last, turns, digest, p)
  {
    var states := history + [last];
    assert states[|history|] == last;
    StateIsGuaranteed(start, last, turns, trusted, digest, p);
    forall i | 0 <= i < |history| ensures Guaranteed(start, history[i], turns, digest, p) {
      assert states[i] == history[i];
      StateIsGuaranteed(start, history[i], turns, trusted, digest, p);
    }
  }

  lemma StateIsGuaranteed(start: Disk, s: Disk, turns: seq<Turn>, trusted: set<Installed>, digest: Digest, p: Platform)
    requires Sound(s, trusted, Strays(start, p), p) && StaysLive(start, s, p)
    requires forall i | i in trusted :: i in InPlace(start, p) || AcceptedInRun(i, turns, digest, p)
    ensures Guaranteed(start, s, turns, digest, p)
  {
  }

  method TakeTurn(store: Store, turns: seq<Turn>, k: nat, digest: Digest, ghost trusted: set<Installed>,
                  ghost strays: set<Doc>, ghost start: Disk)
    returns (ghost after: set<Installed>)
    requires k < |turns| && AllSound(start, store.history + [store.disk], trusted, strays, store.platform)
    modifies store
    ensures trusted <= after
    ensures forall i | i in after - trusted :: AcceptedInRun(i, turns, digest, store.platform)
    ensures AllSound(start, store.history + [store.disk], after, strays, store.platform)
  {
    var began := |store.history|;
    after := CompleteTurn(store, turns, k, digest, trusted, strays, start);
    if turns[k].crash.Some? && began + turns[k].crash.value < |store.history| {
      CrashAt(store, began + turns[k].crash.value, after, strays, start);
    }
  }

  method CompleteTurn(store: Store, turns: seq<Turn>, k: nat, digest: Digest, ghost trusted: set<Installed>,
                      ghost strays: set<Doc>, ghost start: Disk)
    returns (ghost after: set<Installed>)
    requires k < |turns| && AllSound(start, store.history + [store.disk], trusted, strays, store.platform)
    modifies store
    ensures trusted <= after
    ensures forall i | i in after - trusted :: AcceptedInRun(i, turns, digest, store.platform)
    ensures AllSound(start, store.history + [store.disk], after, strays, store.platform)
  {
    ghost var before, d, p := store.history, store.disk, store.platform;
    LastIsSound(start, before, d, trusted, strays, p);
    ghost var steps;
    steps, after := Perform(store, turns[k].op, trusted, strays, digest);
    forall i | i in after - trusted ensures AcceptedInRun(i, turns, digest, p) {
      assert AcceptedBy(i, turns[k].op, digest, p);
    }
    AllSoundJoin(start, d, before, steps, store.disk, trusted, after, strays, p);
  }

  method CrashAt(store: Store, at: nat, ghost trusted: set<Installed>, ghost strays: set<Doc>, ghost start: Disk)
    requires at < |store.history| && AllSound(start, store.history + [store.disk], trusted, strays, store.platform)
    modifies store
    ensures AllSound(start, store.history + [store.disk], trusted, strays, store.platform)
  {
    CrashSound(start, store.history, store.disk, at, trusted, strays, store.platform);
    store.Crash(at);
  }

  lemma LastIsSound(start: Disk, before: seq<Disk>, d: Disk, trusted: set<Installed>, strays: set<Doc>, p: Platform)
    requires AllSound(start, before + [d], trusted, strays, p)
    ensures Sound(d, trusted, strays, p) && StaysLive(start, d, p)
  {
    assert (before + [d])[|before|] == d;
  }

  lemma CrashSound(start: Disk, history: seq<Disk>, last: Disk, at: nat, trusted: set<Installed>, strays: set<Doc>,
                   p: Platform)
    requires at < |history| && AllSound(start, history + [last], trusted, strays, p)
    ensures AllSound(start, history[..at + 1] + [history[at]], trusted, strays, p)
  {
    var states := history[..at + 1] + [history[at]];
    forall i | 0 <= i < |states| ensures Sound(states[i], trusted, strays, p) && StaysLive(start, states[i], p) {
      assert (history + [last])[if i <= at then i else at] == states[i];
    }
  }

  lemma AllSoundJoin(start: Disk, d: Disk, before: seq<Disk>, steps: seq<Disk>, last: Disk, trusted: set<Installed>,
                     more: set<Installed>, strays: set<Doc>, p: Platform)
    requires AllSound(start, before + [d], trusted, strays, p) && AllSound(d, steps + [last], more, strays, p)
    requires trusted <= more
    ensures AllSound(start, before + steps + [last], more, strays, p)
  {
    LastIsSound(start, before, d, trusted, strays, p);
    var states := before + steps + [last];
    forall i | 0 <= i < |states| ensures Sound(states[i], more, strays, p) && StaysLive(start, states[i], p) {
      if i < |before| {
        assert states[i] == (before + [d])[i];
        MoreTrust(states[i], trusted, more, strays, p);
      } else {
        assert states[i] == (steps + [last])[i - |before|];
      }
    }
  }

  // ---------------------------------------------------------------- single installations

  /** At every crash point of an installation the release in service is the old one, or the new one
      once that has been accepted. */
  lemma EveryCrashPoint(d: Disk, states: seq<Disk>, r: Result<Installed>, op: Op, digest: Digest, p: Platform, i: nat)
    requires ActiveOf(d, p).Some? && i < |states|
    requires r.Ok? ==> AllMidInstall(d, states, r.value, p) && AcceptedBy(r.value, op, digest, p)
    requires r.Err? ==> AllAdditive(d, states)
    ensures ActiveOf(states[i], p) == ActiveOf(d, p) || (r.Ok? && ActiveOf(states[i], p) == Some(r.value))
  {
    if r.Err? || states[i].active == d.active {
      assert r.Ok? ==> MidInstall(d, states[i], r.value, p);
      assert r.Err? ==> Additive(d, states[i]);
      KeptResolves(d, states[i], d.active, p);
    } else {
      assert MidInstall(d, states[i], r.value, p);
      AcceptedResolves(states[i], r.value, op.pkg, op.smoke, digest, p);
    }
  }

  /** The files a source tree is checked for. */
  const CHECKED_FILES := {"desktop-bundle.json", "pyproject.toml", "src/backend/cli.py", "src/frontend/dist/index.html"}

  function Losing(d: Disk, dir: Dir, lost: set<string>): Disk
    requires dir in d.dirs
  {
    d.(dirs := d.dirs[dir := d.dirs[dir] - lost])
  }

  lemma RemainsAreValid(t: Tree, lost: set<string>, raw: string)
    requires SourceValid(t, raw)
    ensures SourceValid(t - lost, raw) <==> lost !! CHECKED_FILES
  {
    if f :| f in lost && f in CHECKED_FILES { assert f !in t - lost; }
  }

  lemma RuntimeRemainsAreValid(t: Tree, lost: set<string>, layout: Layout)
    requires RuntimeValid(t, layout)
    ensures RuntimeValid(t - lost, layout) <==> lost !! {"runtime-layout.json", layout.executable, layout.smokeTest}
  {
  }

  lemma RemainsAreProvided(d: Disk, r: ActiveRelease, pkg: Package, p: Platform, lost: set<string>)
    requires pkg.runtime.Some? && TreesValid(d, r, pkg, p) && SourceDir(r.sourceId, p) in d.dirs
    ensures var dir := SourceDir(r.sourceId, p); var left := Losing(d, dir, lost);
            && ProvidedTrees(left, r, pkg, p) == ProvidedTrees(d, r, pkg, p).(source := d.dirs[dir] - lost)
            && (TreesValid(left, r, pkg, p) <==> lost !! CHECKED_FILES)
  {
    RemainsAreValid(d.dirs[SourceDir(r.sourceId, p)], lost, pkg.serverRaw);
  }

  /** What a directory is checked for before it is used again: the files named here, no more and no less.
      So what a crash in the middle of a clean-up has left of a source tree passes for the whole
      exactly if these are left, as far as the smoke test does not miss anything. */
  lemma RemainsPassForTheWhole(d: Disk, pkg: Package, smoke: Installed -> bool, digest: Digest, p: Platform,
                               lost: set<string>)
    requires Installable(d, pkg, smoke, digest, p) && SourceDir(digest(pkg.serverRaw), p) in d.dirs
    ensures var dir := SourceDir(digest(pkg.serverRaw), p);
            var left := Losing(d, dir, lost);
            && Candidate(left, pkg, digest, p) == Candidate(d, pkg, digest, p).(source := d.dirs[dir] - lost)
            && (Installable(left, pkg, smoke, digest, p)
                <==> lost !! CHECKED_FILES && smoke(Candidate(left, pkg, digest, p)))
  {
    InstallableMeans(Losing(d, SourceDir(digest(pkg.serverRaw), p), lost), pkg, smoke, digest, p);
    RemainsAreProvided(d, Candidate(d, pkg, digest, p).release, pkg, p, lost);
  }

  lemma RuntimeRemainsAreProvided(d: Disk, r: ActiveRelease, pkg: Package, p: Platform, lost: set<string>)
    requires pkg.runtime.Some? && TreesValid(d, r, pkg, p) && RuntimeDir(r.runtimeId, p) in d.dirs
    ensures var dir := RuntimeDir(r.runtimeId, p); var left := Losing(d, dir, lost);
            var layout := pkg.runtime.value.layout;
            && ProvidedTrees(left, r, pkg, p) == ProvidedTrees(d, r, pkg, p).(runtime := d.dirs[dir] - lost)
            && (TreesValid(left, r, pkg, p)
                <==> lost !! {"runtime-layout.json", layout.executable, layout.smokeTest})
  {
    RuntimeRemainsAreValid(d.dirs[RuntimeDir(r.runtimeId, p)], lost, pkg.runtime.value.layout);
  }

  /** The same for what is left of a runtime. */
  lemma RuntimeRemainsPass(d: Disk, pkg: Package, smoke: Installed -> bool, digest: Digest, p: Platform,
                           lost: set<string>)
    requires Installable(d, pkg, smoke, digest, p)
    requires RuntimeDir(pkg.runtime.value.layout.fingerprint, p) in d.dirs
    ensures var layout := pkg.runtime.value.layout;
            var left := Losing(d, RuntimeDir(layout.fingerprint, p), lost);
            && (Installable(left, pkg, smoke, digest, p)
                <==> lost !! {"runtime-layout.json", layout.executable, layout.smokeTest}
                     && smoke(Candidate(left, pkg, digest, p)))
  {
    InstallableMeans(Losing(d, RuntimeDir(pkg.runtime.value.layout.fingerprint, p), lost), pkg, smoke, digest, p);
    RuntimeRemainsAreProvided(d, Candidate(d, pkg, digest, p).release, pkg, p, lost);
  }

  /** An archive that breaks off is no obstacle exactly if its directory is there already. */
  lemma BrokenSource(d: Disk, pkg: Package, smoke: Installed -> bool, digest: Digest, p: Platform)
    requires Installable(d, pkg, smoke, digest, p)
    ensures var broken := pkg.(sourceArchive := pkg.sourceArchive.(breaksOff := true));
            Installable(d, broken, smoke, digest, p) <==> SourceDir(digest(pkg.serverRaw), p) in d.dirs
  {
    InstallableMeans(d, pkg, smoke, digest, p);
    InstallableMeans(d, pkg.(sourceArchive := pkg.sourceArchive.(breaksOff := true)), smoke, digest, p);
  }

  lemma BrokenRuntime(d: Disk, pkg: Package, smoke: Installed -> bool, digest: Digest, p: Platform)
    requires Installable(d, pkg, smoke, digest, p)
    ensures var broken := pkg.(runtimeArchive := pkg.runtimeArchive.(breaksOff := true));
            var dir := RuntimeDir(pkg.runtime.value.layout.fingerprint, p);
            Installable(d, broken, smoke, digest, p) <==> dir in d.dirs
  {
    InstallableMeans(d, pkg, smoke, digest, p);
    InstallableMeans(d, pkg.(runtimeArchive := pkg.runtimeArchive.(breaksOff := true)), smoke, digest, p);
  }

  /** A pointer that resolves goes on doing so exactly as long as four files of its trees are there. */
  lemma FourFilesDecide(d: Disk, pointer: Option<Doc>, p: Platform, lost: set<string>)
    requires Resolved(d, pointer, p).Some?
    ensures var r := pointer.value.release;
            var source, runtime := SourceDir(r.sourceId, p), RuntimeDir(r.runtimeId, p);
            && source in d.dirs && runtime in d.dirs
            && (Resolved(Losing(d, source, lost), pointer, p).Some?
                <==> lost !! {"src/backend/cli.py", "src/frontend/dist/index.html"})
            && (Resolved(Losing(d, runtime, lost), pointer, p).Some? <==> lost !! {r.executable, r.smokeTest})
  {
  }

  /** When an installation has succeeded, the package's whole trees are in service exactly if their
      directories were not there before or already equalled them. */
  lemma WholeTreesIff(d: Disk, t: Disk, pkg: Package, smoke: Installed -> bool, digest: Digest, p: Platform)
    requires Installable(d, pkg, smoke, digest, p) && Serves(d, t, Candidate(d, pkg, digest, p), p)
    ensures ActiveOf(t, p).Some?
    ensures var i := ActiveOf(t, p).value;
            var source, runtime := SourceDir(i.release.sourceId, p), RuntimeDir(i.release.runtimeId, p);
            var wholeSource, wholeRuntime := Unpacked(pkg.sourceArchive.entries), Unpacked(pkg.runtimeArchive.entries);
            && (i.source == wholeSource <==> source !in d.dirs || d.dirs[source] == wholeSource)
            && (i.runtime == wholeRuntime <==> runtime !in d.dirs || d.dirs[runtime] == wholeRuntime)
  {
    AcceptedResolves(t, Candidate(d, pkg, digest, p), pkg, smoke, digest, p);
  }

  // ---------------------------------------------------------------- when an installation is called for

  predicate ReadableAndValid(pkg: Package, p: Platform) {
    pkg.server.Some? && pkg.runtime.Some? && ManifestsValid(pkg.server.value, pkg.runtime.value, p)
  }

  /** After one package has been installed another one is up to date exactly if it is the same server on
      the same runtime: whatever else is new, a new server manifest calls for an installation. */
  lemma UpToDateIff(d: Disk, t: Disk, a: Package, smoke: Installed -> bool, b: Package, digest: Digest, p: Platform)
    requires Installable(d, a, smoke, digest, p) && Serves(d, t, Candidate(d, a, digest, p), p)
    requires ReadableAndValid(b, p)
    requires digest(a.serverRaw) == digest(b.serverRaw) ==> a.serverRaw == b.serverRaw
    ensures !NeedsInstall(t, b, digest, p)
       <==> a.serverRaw == b.serverRaw && a.runtime.value.layout.fingerprint == b.runtime.value.layout.fingerprint
  {
    AcceptedResolves(t, Candidate(d, a, digest, p), a, smoke, digest, p);
  }

  /** On any disk: an installation is called for exactly if the manifests cannot be read, nothing is in
      service, or what is differs from what the package would put there in source, runtime or target;
      for valid manifests, that is. */
  lemma NeedsInstallIff(d: Disk, pkg: Package, digest: Digest, p: Platform)
    requires pkg.server.Some? && pkg.runtime.Some? ==> ReadableAndValid(pkg, p)
    ensures NeedsInstall(d, pkg, digest, p)
       <==> pkg.server == None || pkg.runtime == None || ActiveOf(d, p) == None
            || !SameBuild(ActiveOf(d, p).value.release, Candidate(d, pkg, digest, p).release)
  {
  }

  predicate SameBuild(a: ActiveRelease, b: ActiveRelease) {
    a.sourceId == b.sourceId && a.runtimeId == b.runtimeId && a.target == b.target
  }
}
