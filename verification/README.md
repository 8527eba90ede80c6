# Verified models of the HugAgent desktop shell and backend core

A Dafny 4.11 project beside the repository. It models the parts of the desktop shell (Rust) and of
the backend (Python) whose correctness depends on order, interleaving, crashes or arithmetic, and
proves what they are for. `dafny verify dfyconfig.toml` checks everything.

The components, and where they are:

| files | models |
|---|---|
| `DesktopSession`, `DesktopSessionProgress`, `DesktopSessionGap`, `SessionEpoch` | logins, logouts, refresh loops and proxied requests of the desktop shell around one session epoch |
| `Credentials` | the stored session token and its tombstone file, under crashes and failing stores |
| `Releases`, `ReleaseStore`, `ReleaseRuns`, `ReleaseStrays` | the content-addressed release store and its two pointer files, with a crash possible after any single write |
| `Upgrade` | an upgrade of the local server with backup, first start and rollback |
| `Lifecycle`, `LifecycleProgress`, `LifecycleGap` | the server process under concurrent starts, installations and shutdowns |
| `ChatTables`, `ChatRepair`, `ChatRuns` | the repair of chat sequence numbers, and whole lives of a database under old and new releases |
| `Events`, `Hooks`, `HookLaws` | frozen values, the event sink and its observers, the hook pipeline |
| `Ephemeral` | the in-process TTL store against an exact timed map |
| `CircuitBreaker` | the circuit breaker with any number of calls in flight |
| `Segments`, `ToolLog`, `DisplayBounds` | the stream recorder, the log of tool calls, and the bounded display copy of a tool result |
| `JsonExtract`, `Base64` | the scanner for the first JSON object of a text, and the base64 encoder |

How it is built. Objects that the source updates in place are classes, loops that update variables are
methods with loops; each is proved against a specification function, and the main results are lemmas
about those functions, over all inputs and all runs. Protocols of concurrent tasks are transition
functions that move one task over one atomic access; every finite sequence of events is a run. A crash
is any state of the recorded history of single disk writes. What lies outside - networks, clocks,
processes, archives, SHA-256, the operating system's credential store, callbacks - answers
arbitrarily: it is a parameter.

Things the proofs brought to light:

- The proxy's last check reads the counter twice. A request is forwarded only if no login or logout
  began before the upstream answer arrived, but a whole login can pass between the last two reads
  (`ForwardedAfterAnotherLogin`). Over every run this happens exactly when such a login has stored the
  active marker before the request reads it for the last time (`ForwardedOutsideItsEpoch`).
- A logout that can neither write the tombstone nor reach the credential store finishes all the same,
  and the credential of the session it ended stays (`CredentialOutlivesLogout`). Nothing else of a
  former session outlives a logout (`LogoutLeavesNothing`), and what a later start loads is settled by
  these two steps alone (`Credentials.LogoutExactly`).
- `EventSink.append` promises that an observer cannot alter control flow. That holds for exceptions,
  timeouts and events of any other content, but not for what is no `Exception` - a cancellation inside
  a store, subscriber or usage recorder, a `SystemExit` - nor, while there is a subscriber, for a store
  that returns something whose fields cannot be read or whose payload cannot be copied: reading and
  copying stand outside the handlers (`InterferenceExactly` is the exact condition).
- A tool result is matched by name before the entry with its own id is reached. When two calls of one
  tool answer out of order, one result is overwritten (`OutOfOrderLosesResult`). The exact condition is
  `LandsOnOwnEntry` for a log and `OrderIsWhatItTakes` for a stream.
- Asking `SegmentRecorder` for its payload in the middle of a text splits it in two, and nothing else
  does (`AdjacentIffTorn`, `PayloadSplitsText`).
- A rolled-back upgrade hands back the files it saved. If there was none of them before, no backup is
  made, and whatever the failed release created stays (`HandedBackExactly`, `PromiseBeforehand`).
- A release directory that is there already is checked for a few files only, so the remains of an
  interrupted clean-up pass for the whole (`RemainsPassForTheWhole`, `WholeTreesIff`).
- An unaccepted release can come into service, even the very one whose smoke test has just failed: its
  directories stay, and a rollback follows a pointer file that did not resolve before
  (`FailedReleaseServes`). Exactly the well-formed records of pointer files that do not resolve are in
  question, except that of a previous pointer whose runtime directory is the active release's own and
  lacks its files: nothing else unaccepted is ever in service (`ReleaseRuns.Live`), and each of them
  can be brought there (`ReleaseStrays.Wake`).
- A start from elsewhere can run a server while an installation, which has stopped it, works on its
  data (`ServerRunsDuringInstall`). Nothing else can (`QuietWithoutStarts`,
  `AliveWasSpawnedMeanwhile`), and a start can exactly until a shutdown has begun (`ServerCanRunIff`).
- The documentation of the circuit breaker speaks of limited requests in half-open; the code lets
  everybody in (`HalfOpenAdmitsAll`).

## Model

| member | source | states |
|---|---|---|
| `DesktopSession.SessionIsolation` | desktop/src-tauri/src/lib.rs:185-204 | over every interleaving of logins, logouts, refresh loops and requests: once the locked cleanup of the current epoch is over, token, bridge identity and local bridge are each empty or written by that epoch, the stored credential as well unless that epoch's last save reached neither tombstone nor store, and no task of another epoch is past its check inside the lock |
| `DesktopSession.LogoutLeavesNothing` | desktop/src-tauri/src/lib.rs:185-204 | from a finished logout to the next login or logout token, bridge identity and bridge are empty whatever older tasks still do, and so is the stored credential unless the logout reached neither tombstone nor store |
| `DesktopSession.ActiveOwnership` | desktop/src-tauri/src/auth.rs:18-35 | the active marker never exceeds the counter; where they agree above zero the token is the one the login of that epoch redeemed; a refresh loop inside the lock writes for the active epoch with that epoch's own token |
| `DesktopSession.ForwardedInOneEpoch` | desktop/src-tauri/src/proxy.rs:160-229 | a request is forwarded only if the counter had the same value at its first read, at the check before sending and when the answer arrived |
| `DesktopSession.StepKeepsInv` | desktop/src-tauri/src/hybrid.rs:464-508 | every single atomic step of every task keeps the invariant that ties cells, tasks and lock to epochs |
| `DesktopSession.RunKeepsInv` | desktop/src-tauri/src/lib.rs:1149-1182 | so does every run of any number of tasks |
| `DesktopSession.OwnerKeepsInv` | desktop/src-tauri/src/lib.rs:1149-1182 | a login or logout keeps the invariant at every atomic access of its two critical sections |
| `DesktopSession.LoopKeepsInv` | desktop/src-tauri/src/hybrid.rs:125-152 | a refresh loop keeps the invariant at every atomic access of its checks and locked writes |
| `DesktopSession.RunGrows` | desktop/src-tauri/src/auth.rs:18-35 | counter and marker never fall over a run, and what an epoch redeemed never changes |
| `DesktopSessionProgress.LoginAchieves` | desktop/src-tauri/src/lib.rs:1149-1203 | from any state with the mutex free, for every token and with or without a local backend: a login of the current epoch that is answered with success everywhere ends with its token in memory and in the store, its epoch active, and its refresh loop started exactly where there is a local backend |
| `DesktopSessionProgress.LogoutAchieves` | desktop/src-tauri/src/lib.rs:185-204 | such a logout ends with every cell empty |
| `DesktopSessionProgress.SavedCredentialStays` | desktop/src-tauri/src/auth.rs:91-115 | over every run: when the save of a login's token was answered with success, the store holds the redeemed token for as long as that epoch is the current one |
| `DesktopSessionProgress.RequestAchieves` | desktop/src-tauri/src/proxy.rs:160-229 | a request that nothing interrupts while its epoch is active is forwarded |
| `DesktopSessionProgress.LoopAchieves` | desktop/src-tauri/src/hybrid.rs:110-194 | a refresh loop of the active epoch that meets with success publishes the identity and the bridge it has fetched, with the session's token, and gives the mutex back |
| `DesktopSessionProgress.StartupAchieves` | desktop/src-tauri/src/lib.rs:430-460 | so does the loop of a session loaded at startup; without one no loop starts |
| `DesktopSessionProgress.CloudOnlyHasNoLoops` | desktop/src-tauri/src/lib.rs:1184-1203 | without a local backend no loop ever runs |
| `DesktopSessionProgress.GivesUpAfterProbes` | desktop/src-tauri/src/hybrid.rs:153-175 | a loop whose local server does not get ready ends after 480 probes, with a check before each, and not before |
| `DesktopSessionGap.ForwardedOutsideItsEpoch` | desktop/src-tauri/src/proxy.rs:227-229 | over every run: a request is forwarded in its own epoch exactly when no later login had stored the active marker before the request read it for the last time; otherwise in the epoch of a login that has redeemed its ticket and is past its activation |
| `DesktopSessionGap.ForwardedAfterAnotherLogin` | desktop/src-tauri/src/proxy.rs:227-229 | a run in which a whole login passes between the two reads and the request of the former epoch is still forwarded |
| `DesktopSessionGap.CredentialOutlivesLogout` | desktop/src-tauri/src/auth.rs:91-115 | a run in which tombstone and store both fail: the logout is finished and the credential of the session it ended is still stored |
| `SessionEpoch.SessionEpoch.Advance` | desktop/src-tauri/src/auth.rs:22-24 | every epoch that was current is stale, and nothing is active until the counter has come full circle |
| `SessionEpoch.SessionEpoch.Activate` | desktop/src-tauri/src/auth.rs:31-35 | a stale login activates nothing; a current one makes its epoch active |
| `Credentials.AuthFiles.SaveToken` | desktop/src-tauri/src/auth.rs:91-115 | what a save leaves on disk when it stops after any step and any of its steps fails |
| `Credentials.AuthFiles.LoadToken` | desktop/src-tauri/src/auth.rs:51-85 | which token a load gives and what it leaves on disk, with every failure of the store |
| `Credentials.StartupMigrates` | desktop/src-tauri/src/auth.rs:46-85 | after the startup load no plaintext file is left; a token that was in it is handed on unless the store has one; it has been written to the store, or, if the store refused, the tombstone has been put up unless that failed as well |
| `Credentials.MigrationKeepsSession` | desktop/src-tauri/src/auth.rs:46-85 | what one load has handed on, the next one does as well |
| `Credentials.StepByStep` | desktop/src-tauri/src/auth.rs:91-115 | what a save has done when it stops at each of its steps |
| `Credentials.SavesLeaveNoPlaintext` | desktop/src-tauri/src/auth.rs:114 | a save that gets to its end leaves no plaintext file |
| `Credentials.StoreIsNewest` | desktop/src-tauri/src/auth.rs:91-115 | over any run a store the tombstone does not overrule holds the token of the last save that reached store or tombstone |
| `Credentials.NoOlderToken` | desktop/src-tauri/src/auth.rs:91-115 | once a save has written its tombstone, every token loaded later is that save's or a later one's |
| `Credentials.SavedTokenIsLoaded` | desktop/src-tauri/src/auth.rs:51-85 | after a save that went through, every later load gives that token for as long as the store can be read |
| `Credentials.LogoutIsFinal` | desktop/src-tauri/src/auth.rs:91-110 | after a logout that wrote its tombstone or deleted the token nothing is loaded until a login has stored one, whatever fails or crashes |
| `Credentials.LogoutExactly` | desktop/src-tauri/src/auth.rs:91-110 | that condition is also necessary |
| `ReleaseStore.Store.AtomicWrite` | desktop/src-tauri/src/local_payload.rs:449-465 | at every step a pointer file has its old or its new content |
| `ReleaseStore.Store.RemoveTree` | desktop/src-tauri/src/local_payload.rs:657-663 | removes one directory file by file and touches nothing else at any step |
| `ReleaseStore.Store.EnsureDir` | desktop/src-tauri/src/local_payload.rs:211-243 | succeeds exactly when the directory, existing or unpacked, passes its check; at no step is anything but staging directories removed or changed |
| `ReleaseStore.Store.CommitDirectory` | desktop/src-tauri/src/local_payload.rs:649-655 | the destination is there afterwards, with its former content if it had any |
| `ReleaseStore.Store.Activate` | desktop/src-tauri/src/local_payload.rs:435-441 | the previous pointer moves first, then the active one; every step shows one of the three pairs |
| `ReleaseStore.Store.InstallPayloads` | desktop/src-tauri/src/local_payload.rs:189-261 | the exact condition for success; then the release is accepted, resolves, is in service and needs no further install; a failure leaves pointers and directories alone at every step, and the trees that have passed their checks stay |
| `ReleaseStore.Store.RestorePrevious` | desktop/src-tauri/src/local_payload.rs:263-273 | swaps the two pointers exactly when the previous one resolves; every step shows old and former pointers only |
| `ReleaseStore.Store.PruneOldReleases` | desktop/src-tauri/src/local_payload.rs:275-286 | exactly the directories of the two resolving pointers and staging directories are left, and the former are whole at every step |
| `ReleaseStore.InstallableMeans` | desktop/src-tauri/src/local_payload.rs:197-257 | once the package passes its own checks, an installation succeeds exactly when both trees pass and the smoke test does |
| `Releases.KeptResolves` | desktop/src-tauri/src/local_payload.rs:141-170 | a pointer that resolves goes on resolving to the same trees while no visible directory is touched |
| `Releases.AcceptedResolves` | desktop/src-tauri/src/local_payload.rs:172-187 | a pointer to an accepted release resolves to it, and with it in service no install is needed |
| `Releases.NoParentDirOfJoin` | desktop/src-tauri/src/local_payload.rs:594-602 | a path is free of parent directories exactly if each of its parts is, wherever it is cut |
| `Releases.SafeOfJoin` | desktop/src-tauri/src/local_payload.rs:594-602 | absolute paths are never safe, relative ones exactly if all of their parts are |
| `Releases.ValidManifestsMean` | desktop/src-tauri/src/local_payload.rs:288-352 | valid manifests belong to each other and to the platform, and name a release a pointer file can hold |
| `ReleaseRuns.Live` | desktop/src-tauri/src/local_payload.rs:189-286 | from any disk, over any sequence of installs, rollbacks and clean-ups, each crashing after any step: if a release was in service at the start, one is after every step; what is in service was in a resolving pointer file at the start, or has been accepted in this life, or is a well-formed record of a pointer file that did not resolve at the start and was not stuck |
| `ReleaseStrays.Wake` | desktop/src-tauri/src/local_payload.rs:189-286 | and for each such record, on every disk and supported platform, there are packages, a digest and operations that put it into service although none of them accepts it and it was not in place |
| `ReleaseStrays.FailedReleaseServes` | desktop/src-tauri/src/local_payload.rs:245-273 | if the previous pointer holds the record of a release whose installation fails at the smoke test, a rollback puts that release into service, whatever was in service |
| `ReleaseStrays.PreviousWakes` | desktop/src-tauri/src/local_payload.rs:201-243 | after a clean-up and a failed installation for its directories a previous pointer that is not stuck resolves |
| `ReleaseRuns.EveryCrashPoint` | desktop/src-tauri/src/local_payload.rs:189-261 | if a release is in service, then after every single step of an installation what is in service is that release with its own trees, or the new one after it was accepted |
| `ReleaseRuns.UpToDateIff` | desktop/src-tauri/src/local_payload.rs:172-187 | after one package has been installed, another one with valid manifests is up to date exactly if server manifest and runtime fingerprint are the same |
| `ReleaseRuns.NeedsInstallIff` | desktop/src-tauri/src/local_payload.rs:172-187 | on any disk, an installation is called for exactly if a manifest is unreadable, nothing is in service, or what is differs in source, runtime or target from what the package would put there |
| `ReleaseRuns.FourFilesDecide` | desktop/src-tauri/src/local_payload.rs:150-161 | a pointer that resolves goes on doing so exactly as long as the four files it is checked for are there |
| `ReleaseRuns.RemainsPassForTheWhole` | desktop/src-tauri/src/local_payload.rs:354-371 | a source tree that has lost files is still installed exactly if none of the four that are checked is lost and the smoke test passes |
| `ReleaseRuns.RuntimeRemainsPass` | desktop/src-tauri/src/local_payload.rs:373-409 | the same for a runtime and its three files |
| `ReleaseRuns.WholeTreesIff` | desktop/src-tauri/src/local_payload.rs:211-243 | after a successful installation the package's whole trees are in service exactly when their directories were not there or already equalled them |
| `ReleaseRuns.BrokenSource` | desktop/src-tauri/src/local_payload.rs:211-225 | a source archive that breaks off is no obstacle exactly if its directory is there already |
| `ReleaseRuns.BrokenRuntime` | desktop/src-tauri/src/local_payload.rs:228-243 | nor is a runtime archive |
| `Upgrade.Manager.BackupLocalData` | desktop/src-tauri/src/local_server.rs:738-780 | a backup is made exactly when one of the covered files exists, and holds exactly those that do |
| `Upgrade.Manager.RestoreLocalData` | desktop/src-tauri/src/local_server.rs:782-808 | an invalid manifest changes nothing; otherwise covered files that are not listed go, and the listed ones are copied up to the first that the backup lacks, which is the only failure |
| `Upgrade.CompleteRestores` | desktop/src-tauri/src/local_server.rs:782-808 | with none missing that is: covered files as in the backup, absent ones removed, all others untouched |
| `Upgrade.Manager.RunInstall` | desktop/src-tauri/src/local_server.rs:576-673 | for every package, server behaviour and disk: which release is in service afterwards and what the data is; after a success the former release is still there whole and no other directory is; when a release installs but does not start, the former one is active again if it resolves, in an upgrade on the restored data, and the failed one is previous |
| `Upgrade.UpgradeSucceeds` | desktop/src-tauri/src/local_server.rs:576-655 | a package that can be installed and whose server gets healthy is in service afterwards |
| `Upgrade.UpgradeIsTakenBack` | desktop/src-tauri/src/local_server.rs:656-668 | if its server does not get healthy the release before it is in service again, started on the covered files as they were |
| `Upgrade.RestoredMeans` | desktop/src-tauri/src/local_server.rs:782-808 | restoring over any data gives the saved files' content or absence back and leaves the others |
| `Upgrade.HandedBackExactly` | desktop/src-tauri/src/local_server.rs:656-668 | the covered files come back exactly when there was a backup or the failed release created none of them |
| `Upgrade.PromiseBeforehand` | desktop/src-tauri/src/local_server.rs:738-746 | they come back whatever the failed release does exactly when one of them existed before |
| `Upgrade.FailedInstallKeepsService` | desktop/src-tauri/src/local_server.rs:620-646 | a package that cannot be installed leaves in service what was, started again on its own data |
| `Lifecycle.StepKeepsInv` | desktop/src-tauri/src/local_server.rs:344-517 | every atomic step of any start, installation or shutdown keeps the invariant; a closed manager stays closed |
| `Lifecycle.AtMostOneChild` | desktop/src-tauri/src/local_server.rs:384-479 | over every interleaving at most one managed process is alive |
| `Lifecycle.AtMostOneInstall` | desktop/src-tauri/src/local_server.rs:540-561 | over every interleaving at most one installation is running |
| `Lifecycle.ShutdownIsFinal` | desktop/src-tauri/src/local_server.rs:675-721 | after a shutdown that succeeded no managed process is alive and none is ever spawned again |
| `LifecycleProgress.StartReturns` | desktop/src-tauri/src/local_server.rs:344-517 | a start returns success exactly if the server has answered its last probe |
| `LifecycleProgress.InstallGoesOn` | desktop/src-tauri/src/local_server.rs:480-517 | in an installation the same probe decides whether it goes on to its end |
| `LifecycleProgress.StartAchieves` | desktop/src-tauri/src/local_server.rs:344-479 | from any state with the mutex free and no shutdown begun: a start that meets with success ends with the server running under its handle |
| `LifecycleProgress.InstallAchieves` | desktop/src-tauri/src/local_server.rs:540-655 | so does an installation, with its flag down again |
| `LifecycleProgress.ShutdownAchieves` | desktop/src-tauri/src/local_server.rs:675-721 | a shutdown that meets with success ends with nothing running |
| `LifecycleProgress.GivingUpStops` | desktop/src-tauri/src/local_server.rs:480-517 | a start whose server does not get healthy in time fails and leaves nothing running |
| `LifecycleProgress.ProbesAgain` | desktop/src-tauri/src/local_server.rs:480-517 | a probe that is not answered is repeated while the process lives, and ends the start when it does not |
| `LifecycleProgress.Refused` | desktop/src-tauri/src/local_server.rs:540-600 | a second installation is refused, and every start and installation once a shutdown has begun |
| `LifecycleGap.AliveWasSpawnedMeanwhile` | desktop/src-tauri/src/local_server.rs:591-633 | over every run: what is alive while an installation has found the server stopped was spawned by a start from elsewhere, and since then |
| `LifecycleGap.QuietWithoutStarts` | desktop/src-tauri/src/local_server.rs:591-633 | in every run without starts from elsewhere nothing is alive then |
| `LifecycleGap.AnyStartCanSpawn` | desktop/src-tauri/src/local_server.rs:344-479 | from every state of the invariant: a start under way can still spawn beside a waiting installation unless it has to look at a raised shutdown flag |
| `LifecycleGap.ServerCanRunIff` | desktop/src-tauri/src/local_server.rs:332-479 | in every reachable state with a waiting installation some continuation spawns a server exactly if no shutdown has begun or a start is past its last look at the flag |
| `LifecycleGap.ServerRunsDuringInstall` | desktop/src-tauri/src/local_server.rs:591-598 | a run in which an installation has stopped the server and another start has spawned one before the payload |
| `ChatRepair.LoadTaken` | src/backend/db/local_schema_upgrade.py:59-76 | per chat the larger of the highest number and what the cursor has handed out |
| `ChatRepair.Backfill` | src/backend/db/local_schema_upgrade.py:78-93 | each unnumbered row gets the number due to its rank in creation order |
| `ChatRepair.AdvanceCursors` | src/backend/db/local_schema_upgrade.py:104-115 | cursors move past every number and never back |
| `ChatRepair.Database.Reconcile` | src/backend/db/local_schema_upgrade.py:59-131 | succeeds exactly when existing numbers are unique, columns missing or not; the new tables and the report |
| `ChatTables.NumberedUniqueIff` | src/backend/db/local_schema_upgrade.py:117-131 | after the backfill (chat, number) is unique exactly if it was before |
| `ChatTables.BackfillIsFresh` | src/backend/db/local_schema_upgrade.py:68-76 | no backfilled number was handed out before |
| `ChatTables.BackfillStartsAtLeast` | src/backend/db/local_schema_upgrade.py:59-93 | the first row of a chat to be numbered gets the least number above every one in use that no cursor has passed, 1 where there is none |
| `ChatTables.BackfillKeepsOrder` | src/backend/db/local_schema_upgrade.py:78-93 | backfilled numbers follow (created_at, message_id) |
| `ChatTables.BackfillIsConsecutive` | src/backend/db/local_schema_upgrade.py:78-93 | and leave no gap |
| `ChatTables.CursorsAhead` | src/backend/db/local_schema_upgrade.py:104-115 | every cursor exceeds every number of its chat and has not fallen |
| `ChatTables.CursorsAreLeast` | src/backend/db/local_schema_upgrade.py:104-115 | and is the least such value |
| `ChatTables.FreshNumbers` | src/backend/db/local_schema_upgrade.py:59-115 | in a chat without numbers k rows get exactly 1 to k in order of creation, and the cursor is k + 1 |
| `ChatTables.RepairIsIdempotent` | src/backend/db/local_schema_upgrade.py:59-131 | a second repair changes nothing |
| `ChatRuns.StartupIsReconcile` | src/backend/db/local_schema_upgrade.py:59-131 | in every reachable state the repair succeeds and does what the run model's startup does |
| `ChatRuns.HandedOutOnce` | src/backend/db/models/chat.py:245-261 | no reservation and no repair hands out a number that was handed out before |
| `ChatRuns.FirstStartup` | src/backend/db/local_schema_upgrade.py:59-131 | after any life under old releases the first startup numbers the k rows of every chat exactly 1 to k in order of creation; k + 1 is reserved next |
| `ChatRuns.ReservedCanBeInserted` | src/backend/db/models/chat.py:245-261 | every reserved number can be used for a row, and the cursor has moved past all of them |
| `ChatRuns.OldReleasesWrite` | src/backend/db/models/chat.py:224-243 | chats open with their cursor at 1, old rows come without a number, deleted ones are gone |
| `ChatRuns.StepKeepsInv` | src/backend/db/models/chat.py:224-261 | reservations, inserts of either release, deletions and startups keep numbers unique and below their cursors |
| `ChatRuns.NeverHandedOutAgain` | src/backend/db/models/chat.py:245-261 | over any run, what one reservation or repair hands out no later one does |
| `ChatRuns.StepKeepsNumbers` | src/backend/db/local_schema_upgrade.py:78-115 | with every event cursors do not fall, and a row that is not deleted keeps its chat, time and number |
| `ChatRuns.RunKeepsNumbers` | src/backend/db/local_schema_upgrade.py:78-115 | so they do over every run |
| `ChatRuns.RepairedAfterEveryStartup` | src/backend/db/local_schema_upgrade.py:59-131 | after any life of a database that ends with a startup of a new release: no row without a number, numbers unique, every number ever handed out below its cursor, backfilled ones new, another startup without effect |
| `Events.FreezeFreezes` | src/backend/harness/events.py:15-25 | freezing leaves nothing that can be changed and keeps frozen values |
| `Events.FreezeOfThaw` | src/backend/harness/events.py:28-36 | freezing a thawed copy gives what freezing the value gives |
| `Events.ThawOfFreeze` | src/backend/harness/events.py:28-36 | thawing a frozen copy gives what thawing the value gives |
| `Events.FrozenRoundTrip` | src/backend/harness/events.py:15-36 | a frozen value comes back from thawing and freezing |
| `Events.MemoryKeepsEvents` | src/backend/harness/events.py:93-114 | memory holds the event itself, frozen, unless a store answers with something else |
| `Events.EverybodyIsTold` | src/backend/harness/events.py:115-147 | subscribers are told one after the other, each by a frozen copy of the same content |
| `Events.EventSink.Append` | src/backend/harness/events.py:93-147 | one record more unless the store escapes, earlier ones kept; each subscriber gets a frozen copy in order, up to the first that escapes; raises exactly if the store escapes, a subscriber does, or the store returned something that cannot be read or copied and somebody subscribes |
| `Hooks.HookBus.Register` | src/backend/harness/hooks.py:185-196 | refuses exactly undeclared fields and names them; otherwise the stage has the hook in addition, in order |
| `Hooks.InsertedIsSorted` | src/backend/harness/hooks.py:194-196 | a stage is kept in strict (priority, registration) order |
| `Hooks.SortedIsUnique` | src/backend/harness/hooks.py:196 | there is one such order, so any sort gives it |
| `Hooks.HookBus.TryHook` | src/backend/harness/hooks.py:230-253 | the effect of one handler's answer, failure, timeout or breach |
| `Hooks.HookBus.RecordAttempt` | src/backend/harness/hooks.py:256-274 | the recorder gets one record; only its escape is passed on |
| `Hooks.HookBus.Run` | src/backend/harness/hooks.py:216-299 | the outcome is the pipeline's whatever store, subscribers and usage recorder answer; start, one attempt and one usage record per executed hook in order, and finish are submitted, recorded behind earlier records; raises exactly when an observer disturbs it |
| `Hooks.HookBus.Enforce` | src/backend/harness/hooks.py:301-307 | passes the invocation on exactly when no hook rejected or paused |
| `HookLaws.HooksRunInOrder` | src/backend/harness/hooks.py:227-288 | the executed hooks are the first ones of the stage up to the first that ends it, or all; each sees the effective changes before it |
| `HookLaws.DecisionIsTheLastHooks` | src/backend/harness/hooks.py:230-253 | the final decision is that of the hook that ended the stage, a rejection if it failed |
| `HookLaws.VerdictExactly` | src/backend/harness/hooks.py:301-307 | enforcing passes the changed invocation exactly if no hook that ran ended the stage; otherwise that hook says whether it is rejected or paused, and why |
| `HookLaws.ModifyOverrides` | src/backend/harness/hooks.py:92-95 | a modification sets the fields of its patch whatever they were, and leaves the others |
| `HookLaws.LastPatchWins` | src/backend/harness/hooks.py:227-253 | every field comes out as the last hook that ran and set it has set it, or as it went in |
| `HookLaws.ReportsTellTheRun` | src/backend/harness/hooks.py:227-288 | every hook that ran is reported with its own name, status and decision |
| `HookLaws.EventsTellTheRun` | src/backend/harness/hooks.py:220-299 | the events submitted are the start, one for each hook that ran with that report, and the end with all their names, in this order |
| `HookLaws.UsagesTellTheRun` | src/backend/harness/hooks.py:256-274 | the usage records name the same hooks and outcomes |
| `HookLaws.OnlyDeclaredFieldsChange` | src/backend/harness/hooks.py:42-63 | fields no executed hook declared are as they were, and so is everything but data |
| `HookLaws.ReadOnlyStages` | src/backend/harness/hooks.py:42-63 | at stages that allow no field the invocation comes out as it went in |
| `HookLaws.StageFieldsOnly` | src/backend/harness/hooks.py:42-63 | on any bus a field outside the stage's own is as it was |
| `HookLaws.FailedHookDoesNotMatter` | src/backend/harness/hooks.py:244-253 | a hook that failed open, or changed and ended nothing, can be left out without changing invocation or decision |
| `HookLaws.RunTwice` | src/backend/harness/hooks.py:216-299 | two runs of the same hooks with arbitrary different stores, subscribers and recorders that both complete have the same outcome and submit the same events and usage records |
| `HookLaws.InterferenceExactly` | src/backend/harness/events.py:102-150 | a run is disturbed exactly when the store escapes, or returns something that cannot be read or copied while somebody subscribes, a subscriber escapes, or the recorder does; exceptions, timeouts and readable events of any content never disturb it |
| `Ephemeral.LocalEphemeralState.Perform` | src/backend/infra/ephemeral.py:112-167 | every operation answers as the exact timed map does, and leaves the same living entries |
| `Ephemeral.Replay` | src/backend/infra/ephemeral.py:112-167 | over every run with a clock that does not go back, every answer is the exact map's |
| `Ephemeral.ReadAfterWrite` | src/backend/infra/ephemeral.py:112-167 | over every run: what was put, claimed or added up under a key is what every operation finds there while its ttl lasts and nobody touches it, and from then on nothing is found until somebody writes |
| `Ephemeral.ReadAfterRemoval` | src/backend/infra/ephemeral.py:112-167 | nothing is found under a key never written, or not since it was taken or dropped |
| `Ephemeral.ClaimsAreApart` | src/backend/infra/ephemeral.py:159-167 | two winning claims of a key with nothing removing it in between are a ttl apart |
| `Ephemeral.TakenOnce` | src/backend/infra/ephemeral.py:138-139 | between two successful takes the key was created again |
| `Ephemeral.KeyReadsAsTally` | src/backend/infra/ephemeral.py:147-157 | over every run of all operations a key that is present reads as the number last put there, or zero since it was absent or expired, plus everything added since |
| `Ephemeral.TallyIsSumSinceAbsent` | src/backend/infra/ephemeral.py:147-157 | from an addition that finds the key absent, and while it is only added to, that number is the sum of the amounts, whatever happened before |
| `Ephemeral.BumpAnswersTally` | src/backend/infra/ephemeral.py:147-157 | every addition answers that number, or is refused for its ttl or for a text that is no number |
| `CircuitBreaker.CircuitBreaker.Enter` | src/backend/infra/rate_limit.py:97-105 | admission and the change to half-open |
| `CircuitBreaker.CircuitBreaker.OnSuccess` | src/backend/infra/rate_limit.py:107-123 | the step of a success |
| `CircuitBreaker.CircuitBreaker.OnFailure` | src/backend/infra/rate_limit.py:125-148 | the step of a counted failure |
| `CircuitBreaker.RunKeepsInv` | src/backend/infra/rate_limit.py:97-148 | over every run: closed and half-open are below their thresholds, open has a recorded failure |
| `CircuitBreaker.AdmissionRule` | src/backend/infra/rate_limit.py:166-179 | a call is admitted exactly when the breaker is not open or the last failure anybody reported is a timeout ago |
| `CircuitBreaker.StaysOpen` | src/backend/infra/rate_limit.py:97-105 | an open breaker stays open until the timeout is over, whatever calls in flight report |
| `CircuitBreaker.StaysShut` | src/backend/infra/rate_limit.py:97-105 | and admits nobody until then |
| `CircuitBreaker.ClosedCounts` | src/backend/infra/rate_limit.py:125-148 | after any run, however often it was open before, a closed breaker has counted the failures in a row |
| `CircuitBreaker.OpensAtThreshold` | src/backend/infra/rate_limit.py:140-148 | after any run a closed breaker opens exactly at the threshold-th counted failure in a row, with any number of calls in flight |
| `CircuitBreaker.ClosesAtThreshold` | src/backend/infra/rate_limit.py:107-120 | half-open without failures closes exactly at the threshold-th success |
| `CircuitBreaker.ClosesAfterReopening` | src/backend/infra/rate_limit.py:166-179 | after any run: an open breaker that admits somebody closes, without a failure, exactly at the threshold-th success from there |
| `CircuitBreaker.ReopensAtOnce` | src/backend/infra/rate_limit.py:130-138 | one failure in half-open shuts it for a full timeout |
| `CircuitBreaker.HalfOpenStays` | src/backend/infra/rate_limit.py:166-182 | admissions do not change half-open |
| `CircuitBreaker.HalfOpenAdmitsAll` | src/backend/infra/rate_limit.py:166-182 | half-open admits any number of calls |
| `Segments.SegmentRecorder.AddText` | src/backend/chat/tool_log.py:43-45 | the text run in progress grows |
| `Segments.SegmentRecorder.AddThinking` | src/backend/chat/tool_log.py:52-55 | a reasoning block is placed after the text so far |
| `Segments.SegmentRecorder.AddTools` | src/backend/chat/tool_log.py:57-65 | every new card is placed once, in order |
| `Segments.SegmentRecorder.Payload` | src/backend/chat/tool_log.py:67-69 | equals the snapshot before it |
| `Segments.SegmentRecorder.Snapshot` | src/backend/chat/tool_log.py:71-76 | is the normal form of the history and changes nothing |
| `Segments.Record` | src/backend/chat/tool_log.py:33-76 | any run of calls ends with the normal form of its history on show |
| `Segments.NormalKeepsEverything` | src/backend/chat/tool_log.py:14-31 | the normal form loses, doubles and moves nothing |
| `Segments.NormalHasNoEmptyText` | src/backend/chat/tool_log.py:47-50 | the normal form has no empty text |
| `Segments.AdjacentIffTorn` | src/backend/chat/tool_log.py:47-69 | it has two adjacent texts exactly when two characters of the stream have payload requests and nothing else between them |
| `Segments.ShownFaithfully` | src/backend/chat/tool_log.py:33-76 | after any run texts concatenate to all deltas since the reset, cards are 0 to n-1 once each in order, no text is empty, and texts are adjacent exactly where a payload request tore one |
| `Segments.ShownInPlace` | src/backend/chat/tool_log.py:33-76 | what is on show is what was said since the reset, character by character, reasoning blocks and new cards each in its place |
| `Segments.NoPayloadNoSplit` | src/backend/chat/tool_log.py:33-76 | without payload requests no texts are adjacent |
| `Segments.PayloadSplitsText` | src/backend/chat/tool_log.py:67-69 | after any history, a payload request between two deltas tears the text |
| `ToolLog.ToolCalls.UpsertToolCall` | src/backend/chat/tool_log.py:246-257 | the entry with the id is updated, or one appended |
| `ToolLog.ToolCalls.AttachToolResult` | src/backend/chat/tool_log.py:260-279 | the first entry that takes the result gets it, or one is appended |
| `ToolLog.RunGrows` | src/backend/chat/tool_log.py:246-279 | over any stream entries are never removed, moved or renamed, and ids stay unique |
| `ToolLog.EntriesHaveLastDetails` | src/backend/chat/tool_log.py:246-257 | over any stream an entry has the last arguments and the last display name that came for its id |
| `ToolLog.ResultIsLogged` | src/backend/chat/tool_log.py:260-279 | a result that names anything is put on one entry or a new one, and all others stay |
| `ToolLog.LandsOnOwnEntry` | src/backend/chat/tool_log.py:269-276 | a result reaches the entry of its id exactly when no earlier entry of its name still waits |
| `ToolLog.ResultsFindTheirCalls` | src/backend/chat/tool_log.py:246-279 | in every orderly stream each result ends on the entry with its own id |
| `ToolLog.OrderIsWhatItTakes` | src/backend/chat/tool_log.py:246-279 | over streams whose calls have ids and whose results name heard ids: every result is put on its own entry exactly if the stream is orderly |
| `ToolLog.OutOfOrderLosesResult` | src/backend/chat/tool_log.py:273-275 | without the order the result of the second call is lost |
| `DisplayBounds.State.Walk` | src/backend/chat/display_bounds.py:67-92 | the walk with its mutable budget computes the specified tree, budget and flag |
| `DisplayBounds.BoundResultForDisplay` | src/backend/chat/display_bounds.py:54-94 | same shape; strings as a flat scan with one budget shortens them, each its own prefix and a remark, the prefixes together within the stated bound; flag exactly if one exceeded its allowance |
| `DisplayBounds.WalkKeepsShape` | src/backend/chat/display_bounds.py:67-92 | the recursive walk changes strings only |
| `DisplayBounds.WalkIsScan` | src/backend/chat/display_bounds.py:67-92 | it refines the flat scan: strings, budget and flag |
| `DisplayBounds.ShapeAndStringsDecide` | src/backend/chat/display_bounds.py:54-66 | shape and visited strings determine the copy |
| `DisplayBounds.ScanAt` | src/backend/chat/display_bounds.py:41-47 | each string is unchanged or its own prefix and a remark; it keeps as much as the limit for strings allows, or the limit for tails once the strings before it have used up the budget |
| `DisplayBounds.RetainedIsBounded` | src/backend/chat/display_bounds.py:28-32 | the prefixes kept add up to less than budget plus one string plus a tail for each string met late |
| `DisplayBounds.SmallResultsUntouched` | src/backend/chat/display_bounds.py:15-17 | a result within its limits is shown as it is |
| `DisplayBounds.WithinLimits` | src/backend/chat/display_bounds.py:15-32 | so is every result whose strings are within the limit and together within the budget |
| `DisplayBounds.ExceedsIff` | src/backend/chat/display_bounds.py:67-92 | the flag is raised exactly if a string is not kept to its end |
| `DisplayBounds.VisitsEverything` | src/backend/chat/display_bounds.py:67-92 | nothing escapes the walk but what lies below the depth limit |
| `DisplayBounds.GroupedReadsBack` | src/backend/chat/display_bounds.py:44 | the counts in a remark read back as the numbers, with a separator at every third digit |
| `JsonExtract.ExtractFirstObject` | src/backend/llm/_distill_shared.py:76-100 | returns the shortest lexically balanced span from the first brace, and nothing exactly if there is none |
| `JsonExtract.ScanMeansSurplus` | src/backend/llm/_distill_shared.py:80-98 | the scanner's depth is the surplus of opening braces outside strings |
| `JsonExtract.PrintedObject` | src/backend/llm/_distill_shared.py:76-100 | every text of a JSON object is balanced and no shorter prefix of it is |
| `JsonExtract.SectionSevenIsBody` | src/backend/llm/_distill_shared.py:80-98 | the strings of these texts include everything section 7 of RFC 8259 allows, with every escape |
| `JsonExtract.ExtractionInvertsPrinting` | src/backend/llm/_distill_shared.py:76-100 | between any prefix without a brace and any suffix a JSON object, with white space wherever the grammar lets it stand, is found exactly |
| `Base64.Encode` | desktop/src-tauri/src/hybrid.rs:511-535 | the encoder's loop computes the encoding group by group |
| `Base64.TableIsAlphabet` | desktop/src-tauri/src/hybrid.rs:512 | the table is the alphabet of section 4 of RFC 4648 |
| `Base64.RoundTrip` | desktop/src-tauri/src/hybrid.rs:511-535 | decoding by section 4 of RFC 4648 gives the input back |
| `Base64.EncodedLength` | desktop/src-tauri/src/hybrid.rs:513 | the output has four characters for every three octets or part of them |
| `Base64.EncodedShape` | desktop/src-tauri/src/hybrid.rs:521-532 | every character is in the alphabet, padding only at the end |

## Left out

- The session epoch is an unbounded number in the protocol; the class `SessionEpoch` shows the wrap of the 64-bit counter.
- `bridge_sync` is written outside the lock (hybrid.rs:140, hybrid.rs:194), so nothing is claimed for it; nor that the proxy's token read belongs to its epoch.
- Imported model rows, the revocation of the old session at the cloud, and the failure of `clear_cloud_bridge` (only logged): the bridge cell is taken as cleared.
- DesktopSession.SessionIsolation: a local HTTP write counts as finished when its response arrives.
- Credentials: one account key; the tombstone file is shared by all server addresses of a configuration directory.
- Credentials.NoOlderToken: starts after the plaintext file of older versions is gone; `StartupMigrates` is that step.
- Releases: SHA-256 is any function to hexadecimal identifiers; the smoke test is any verdict; writing and parsing a pointer file are taken to agree; a regular file in the place of a release directory, file modes, symbolic links inside archives and backslashes in paths are not modelled.
- ReleaseStore: reads, renames and deletes succeed; a crash can come between any two of them.
- ReleaseStrays.Wake: chooses the digest along with the packages; under SHA-256 the record's source identifier is that of the package it once came from.
- Upgrade.Manager.RunInstall: the processes, the pruning of old backups and crashes in mid-upgrade are not part of it.
- Lifecycle: a poisoned mutex, the Windows search for foreign server processes and the wall-clock length of polling; a process killed and waited for is dead.
- ChatRuns: deletion of chats, ownership checks of a reservation, NULL identifiers and the SQL engine; text columns are ordered keys.
- Hooks: sets inside payloads (frozen and thawed they turn into tuples), external cancellation, hook handlers (not observers) that are cancelled or raise what is no `Exception`, handlers that change an invocation built without freezing, latency and cost in usage records, several runs at once on one bus, the real length of timeouts.
- Events.EventSink.Append: creation times of events; the payloads appended are JSON values, which can always be copied, and a record that could be copied once can be copied again.
- Ephemeral: real numbers for times and totals (no rounding), and calls from several threads whose clock readings and lock acquisitions come in different orders; the Redis store.
- CircuitBreaker: calls on several threads at once, as the methods take no lock, and the decorator.
- ToolLog: that the log keeps the caller's own dictionary objects, sub-agent steps, and the event dictionaries.
- DisplayBounds: reuse of unchanged objects by reference, limits below zero.
- JsonExtract: `strip_think_blocks` and the other rewrites around the scanner.
- Archive extraction, HTTP, windows, menus, updater and credential calls of the operating system are outside; so are configuration switching, masking, header deduplication and the tables of the API, which would only add easy members.
