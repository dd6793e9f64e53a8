# Proofs about the server's protocols and data formats

Dafny models of the parts of the repository whose correctness depends on many steps, on crashes, or on two pieces of code agreeing, with proofs of what holds in every run or for every input. `dafny verify dfyconfig.toml` checks everything.

Each concurrent protocol is a system of steps: a state, the steps enabled in it, and what each of them leaves. Claims about it are about every run, and a run may be cut short anywhere, which is what a crash is.

- **Service launcher** (`LauncherModel`, `LauncherSafety`, `LauncherTheorems`, `LauncherProgress`, `LauncherUpdates`, `Launcher`, `ServiceVersion`, `ServiceVersionText`). One step is one durable operation: a copy of one file, which may be torn, a rename, a marker, a write of the state document. The class `Launcher` has the fields and handlers of the original; each method logs what it does as steps, so its executions are runs of the system.
- **Profile lock** (`ProfileLock`). Contenders step over a path, inodes, hard links and process ids that can be reused.
- **Startup gate** (`CommandGate`). Callers, the worker, the startup sequence and the parked roots in every interleaving.
- **Update manifests** (`UpdateManifest`, `ManifestRoundTrip`, `ManifestLayouts`, `ManifestMerge`): reading, printing, merging.
- **Settings** (`Settings`; `SecretNames`, `ProviderSecrets`, `ProviderSecretTheorems`): sparse storage, and the split between settings and secret store.
- **Keybindings** (`WhenSyntax`, `WhenParser`, `WhenRoundTrip`, `WhenPrecedence`, `Shortcuts`, `ShortcutReading`, `ShortcutRoundTrip`, `KeybindingStore`, `KeybindingTheorems`): conditions, shortcuts, the stored list.
- **Tools and formats**: the bundle budget (`GraphSize`), release tags (`ReleaseTags`, `PreviousRelease`, `TagSpelling`), git output (`GitLog`), attachment ids (`AttachmentId`, `AttachmentText`), data URLs (`DataUrl`).
- Shared: `Optional`, `Text`, `Decimals`, `Ordering`, `StableSort`, `Base64`.

Where a loop changes variables in the original it is a method with a loop here, proved equal to a function; the theorems are about the functions. A pure chain of expressions is a function.

## Properties that fail, and when

- Merging manifests is associative, failure included, except for compatible manifests of which the second and third have no inherited name (`constructor`, `toString`, ...) that the first lacks, while the first and third share one that the second lacks: there the left grouping succeeds and the right one fails, because `mergeExtras` looks keys up in an object that inherits them (`ManifestMerge.MergeAssociates`, `ManifestMerge.InheritedNamesTrip`).
- The profile lock stays with its one owner exactly as long as nobody seizes, that is, unlinks it while a live contender owns it (`ProfileLock.SoundWhenNobodySeizes`); wherever a contender can seize, two more of its steps give the lock a second owner (`ProfileLock.SeizingLosesExclusion`). Nobody seizes if no contender links, or unlinks, an existing lock when another process made a lock since its own owner read, or its own inode comparison, and no file is taken for an old one while its creator still writes (`ProfileLock.UndisturbedRunsExclude`). Neither half suffices: `ProfileLock.RaceBeforeLink` and `ProfileLock.RaceBeforeUnlink` are runs with two holders. A change between link and comparison is harmless, as the claim pins the inode.
- A printed manifest is read back if and only if no number in it is at least 10^21 or, without being zero, below 10^-6: such numbers are printed with an exponent, which the reader takes for a text in an extra and refuses in a file size (`ManifestRoundTrip.RoundTrip`, `ManifestRoundTrip.PrintedReads`; `ManifestRoundTrip.SmallNumberBecomesText` for an input).
- A condition is read back from its printed form just when its parentheses nest at most 64 deep. A chain of 65 `&&` signs is read without trouble and printed too deep (`WhenRoundTrip.ChainsNestWhenPrinted`).
- The cached keybinding rules always equal a reload. The whole cached state does if and only if the file is no array or the last operation, reads not counted, did not upsert a rule that does not resolve; after such an upsert the cache lacks the issue a reload reports (`KeybindingTheorems.RunsAgree`, `KeybindingTheorems.UnusableUpsertHidesIssue`).
- A second startup sync changes the file again if and only if the first one lost a default: it wrote, all it wrote resolves, and the cap left some default without a rule for its command or its shortcut (`KeybindingTheorems.SyncRepeatsWhen`). For every list of defaults a full list that begins with a default does it, when nothing else in it has that command or shortcut (`KeybindingTheorems.TruncatedSyncRepeats`, `KeybindingTheorems.FullListRepeats`). Dropping custom rules alone does not make it repeat.
- Reloading written settings gives them back just when no used instance of an optional provider lacks a flag of its own (`Settings.ReloadIsIdentityWhen`); an instance that does comes back switched on (`Settings.UnflaggedInstanceComesBackOn`).
- A supplied secret reads back just when it is empty or the last entry for its key that is no mere marker is sensitive and has the same value (`ProviderSecretTheorems.SuppliedReadsBackWhen`); likewise for markers (`ProviderSecretTheorems.MarkedReadsBackWhen`) and for posting back what was shown (`ProviderSecretTheorems.RepostChangesNothingWhen`). So only a variable name repeated within an instance can lose a secret, as in `ProviderSecretTheorems.RepeatedNameLosesSecret`.
- An accepted payload is the encoding of some bytes just when its leftover bits are zero, which is not checked (`DataUrl.AcceptedIsEncodedWhen`); `data:image/png;base64,AB==` is accepted although no encoder writes it (`DataUrl.LeftoverBitsAreNotChecked`).

The injectivity of secret names rests on the patterns for ids and variable names: keys with `>` or `~`, which the schema refuses, could share a name (`SecretNames.SecretNamesCollide`).

## Model

| member | source | states |
|---|---|---|
| LauncherSafety.StepPreserves | apps/server/src/serviceLauncher.ts:354-602 | Every step, crash, torn copy, failing write or stale event included, keeps the invariant that ties record, processes, backup and live database files together. |
| LauncherTheorems.EveryRunIsSafe | apps/server/src/serviceLauncher.ts:354-443 | In every state of every run, a child being stopped and a failing launcher included, at most one process is alive, and it runs either the selected version or the target of the pending update, which then was tried before and has a complete backup without restore marker; an idle active child has the selected version. |
| LauncherTheorems.StepKeepsSelected | apps/server/src/serviceLauncher.ts:354-602 | No step, crash or failure leaves a process alive that runs neither the selected version nor the backed-up trial of the pending update. |
| LauncherTheorems.StartsAreSafe | apps/server/src/serviceLauncher.ts:354-443 | A child starts only when no other is alive and no pending update carries a restore marker. |
| LauncherTheorems.OnlyCommitsSelect | apps/server/src/serviceLauncher.ts:514-540 | The selected version changes only at a commit that matches the pending update, and to a newer version. |
| LauncherTheorems.SelectionNeverGoesBack | apps/server/src/serviceLauncher.ts:454-540 | Over any run the selected version never precedes an earlier one. |
| LauncherTheorems.RecordChanges | apps/server/src/serviceLauncher.ts:454-602 | The durable record changes in three ways only: an accepted request, a matching commit, the settling of a rollback. |
| LauncherTheorems.BeforeChanges | apps/server/src/serviceLauncher.ts:97-118 | The noted database is the live one at the moment the last child of an untried update is gone, and stays noted until the next request. |
| LauncherTheorems.OutcomeChanges | apps/server/src/serviceLauncher.ts:514-602 | A terminal record appears only for the update that was pending, together with its outcome. |
| LauncherTheorems.CrashSafeRollback | apps/server/src/serviceLauncher.ts:97-160 | With crashes anywhere, when an update becomes rolled-back or failed the three database files are, absence included, what they were when the old child was gone and before any trial. |
| LauncherTheorems.OutcomesAreFinal | apps/server/src/serviceLauncher.ts:581-602 | An update never gets a second terminal status, across any number of launcher lives. |
| LauncherProgress.QuietStepsAdvance | apps/server/src/serviceLauncher.ts:499-579 | Without crash, stop, failing restore or error of a child each step leaves the pending update where it is, brings it strictly nearer to its end, or is its one end. |
| LauncherProgress.TimerIsSet | apps/server/src/serviceLauncher.ts:418-501 | In every run, with any crashes, while an update is pending at an idle launcher the hand-off or the prepared timer of the managed child is set. |
| LauncherProgress.SomeStepAdvances | apps/server/src/serviceLauncher.ts:378-512 | A pending update is never stuck: the timer that was set, the exit of a child or the operation that is due moves it on. |
| LauncherProgress.MovesAreBounded | apps/server/src/serviceLauncher.ts:499-579 | While an update is pending at most as many steps as its initial rank can move it, and the last of them ends it with one terminal record. |
| LauncherProgress.OneTrialPerUpdate | apps/server/src/serviceLauncher.ts:378-391 | Without a crash no update is tried twice. |
| LauncherUpdates.AdmissibleRequestCommits | apps/server/src/serviceLauncher.ts:454-540 | From every idle state of the launcher, an active selected server that asks for a newer, exact, installed target, with nothing pending and a database to back up, gets it: acceptance, hand-off, backup, trial and commit lead to the target selected and served. |
| LauncherUpdates.InterruptedUpdateCommits | apps/server/src/serviceLauncher.ts:354-391 | An update that a crash cut short, unless its restore had begun, still reaches its commit after the next start. |
| LauncherUpdates.HopelessUpdateIsGivenUp | apps/server/src/serviceLauncher.ts:354-376 | An update whose restore had begun, or whose target is gone, is given up at recovery without a backup or a trial. |
| LauncherUpdates.RefusedForFirstFault | apps/server/src/serviceLauncher.ts:454-487 | Each refusal names a fault that is there, and none that is looked for earlier is. |
| Launcher.Launcher.constructor | apps/server/src/serviceLauncher.ts:266-297 | A new process over whatever an earlier run left on disk is at recovery, with no child and the record in memory. |
| Launcher.Launcher.StageFile | apps/server/src/serviceLauncher.ts:97-118 | One file is staged, a missing sidecar skipped, a torn copy logged as such; only the staging directory changes. |
| Launcher.Launcher.BackupDatabaseOnce | apps/server/src/serviceLauncher.ts:97-118 | Either a complete backup of the noted database exists afterwards, taken now or earlier, or the launcher turns to the rollback; live files and record are untouched. |
| Launcher.Launcher.PublishBackup | apps/server/src/serviceLauncher.ts:108-117 | One rename makes the staged copy the backup; when the directory sync goes well too, it equals the noted database. |
| Launcher.Launcher.RestoreFile | apps/server/src/serviceLauncher.ts:141-160 | One file is put back or removed, or the attempt ends in failure; nothing but live files changes. |
| Launcher.Launcher.RestoreDatabaseBackup | apps/server/src/serviceLauncher.ts:127-160 | When it comes to its end the live database equals the noted one; otherwise the launcher fails with the record unchanged. |
| Launcher.Launcher.DiscardDatabaseBackup | apps/server/src/serviceLauncher.ts:162-167 | Removed, removed in part or not at all, the transition goes on, and files, record and child stay. |
| Launcher.Launcher.ReturnToPrevious | apps/server/src/serviceLauncher.ts:581-602 | At its end the previous version runs on the database the old child left, and the record is terminal. |
| Launcher.Launcher.StartTrial | apps/server/src/serviceLauncher.ts:378-391 | A trial runs with a backup behind it, or the previous version runs and the update has failed. |
| Launcher.Launcher.StartActive | apps/server/src/serviceLauncher.ts:393-443 | The selected version runs as the only child, or the launcher fails with nothing changed. |
| Launcher.Launcher.Recover | apps/server/src/serviceLauncher.ts:354-376 | Recovery ends with a child; a settled record stays, and a restore that was cut short ends in a failed update. |
| Launcher.Launcher.HandleUpdateRequest | apps/server/src/serviceLauncher.ts:454-501 | A request is accepted exactly when the asker is the active selected server, nothing is pending and the target is exact, newer, installed and its database path absolute; else the reply is the first fault, and nothing durable changes. An accepted update is pending before it is answered. |
| Launcher.Launcher.HandleBeginTrial | apps/server/src/serviceLauncher.ts:503-512 | A stale hand-off does nothing; a valid one stops the old server and ends with a trial or the old version. |
| Launcher.Launcher.HandlePrepared | apps/server/src/serviceLauncher.ts:514-540 | A matching message commits with the database untouched; another one rolls back; one from an active server is an error. |
| Launcher.Launcher.HandlePreparedTimeout | apps/server/src/serviceLauncher.ts:542-549 | A trial that never prepared is rolled back; a stale timer does nothing. |
| Launcher.Launcher.HandleExit | apps/server/src/serviceLauncher.ts:551-579 | An exiting trial is rolled back, an exiting server with an update pending hands over, any other exit ends the launcher; exits of earlier children do nothing. |
| Launcher.Launcher.Finish | apps/server/src/serviceLauncher.ts:306-347 | A stop or an uncaught error leaves no child alive and the record as it was. |
| ServiceVersionText.CompareExactServiceVersions | apps/server/src/cloud/serviceProtocol.ts:86-121 | The comparison splits both texts, compares the numbers, then the prerelease texts, and gives the precedence of the versions read. |
| ServiceVersionText.ReadSpellsBack | apps/server/src/cloud/serviceProtocol.ts:41-48 | Every exact version text is the spelling of the version read from it, so reading loses nothing. |
| ServiceVersionText.SpelledReadsBack | apps/server/src/cloud/serviceProtocol.ts:41-98 | Every version of well-formed parts is spelled as an exact version and read back from it. |
| ServiceVersionText.TiesAreTheSameText | apps/server/src/cloud/serviceProtocol.ts:86-121 | Two exact versions compare equal if and only if their texts agree up to the build metadata. |
| ServiceVersion.CompareIsTotalPreorder | apps/server/src/cloud/serviceProtocol.ts:86-121 | That comparison is a total preorder. |
| ServiceVersion.TiesDifferOnlyInBuild | apps/server/src/cloud/serviceProtocol.ts:86-121 | Two versions tie exactly when they differ in nothing but build metadata. |
| ServiceVersion.PrecedesIsStrict | apps/server/src/cloud/serviceProtocol.ts:86-121 | Being older is irreflexive and transitive. |
| ServiceVersion.Precedence | apps/server/src/cloud/serviceProtocol.ts:86-121 | One version is older than another exactly by the rules of section 11 of SemVer 2.0.0. |
| ProfileLock.StepKeepsSoundWhen | apps/server/src/serverProfileLock.ts:171-256 | From any state in which the lock file at the path is that of its one owner, a step leads to another such state if and only if it does not seize. |
| ProfileLock.SoundWhenNobodySeizes | apps/server/src/serverProfileLock.ts:192-256 | In every run the lock file stays that of its one owner up to a state if and only if nobody seized before. |
| ProfileLock.MutualExclusion | apps/server/src/serverProfileLock.ts:192-243 | In every run at most one live contender owns the lock at any time, as long as nobody has seized it. |
| ProfileLock.SeizingLosesExclusion | apps/server/src/serverProfileLock.ts:171-204 | From every state in which a contender can unlink a live owner's lock, that step, giving up the claim and creating the file anew end with two owners. |
| ProfileLock.UndisturbedRunsExclude | apps/server/src/serverProfileLock.ts:192-243 | Nobody seizes in a run whose reclaims are undisturbed, so such runs exclude throughout. |
| ProfileLock.ReleaseRemovesOwnLock | apps/server/src/serverProfileLock.ts:244-256 | As long as nobody has seized, a release removes the caller's own lock and leaves none. |
| ProfileLock.ReclaimRemovesStaleLock | apps/server/src/serverProfileLock.ts:171-190 | In an undisturbed run a reclaim removes a lock that no live contender owns. |
| ProfileLock.HolderReadsItself | apps/server/src/serverProfileLock.ts:244-256 | As long as nobody has seized, a live holder reads its own record back, so it can always release. |
| ProfileLock.RefusesWhenOwnerLives | apps/server/src/serverProfileLock.ts:156-164 | A contender that read an owner refuses if and only if a live process has both that process id and that start token, and changes no file in doing so. |
| ProfileLock.DeadOwnerIsReplaced | apps/server/src/serverProfileLock.ts:171-226 | With no such process it gets the lock by itself, also when the process id was given out again. |
| ProfileLock.AcquiresAlone | apps/server/src/serverProfileLock.ts:192-243 | A contender that starts alone ends holding the lock, over a missing, a stale or an old unreadable file, and refuses exactly when the recorded owner runs. |
| ProfileLock.CrashedHolderIsReplaced | apps/server/src/serverProfileLock.ts:192-243 | A holder that dies leaves its lock behind, and the next contender takes it over, also one that got the same process id. |
| ProfileLock.YoungFileIsLeft | apps/server/src/serverProfileLock.ts:228-238 | A young unreadable file is not reclaimed. |
| ProfileLock.HoldersHold | apps/server/src/serverProfileLock.ts:192-256 | As long as nobody has seized, a live holder's record is the one at the path. |
| ProfileLock.ReleasesAlone | apps/server/src/serverProfileLock.ts:244-256 | A holder that releases takes its lock away. |
| ProfileLock.RaceBeforeLink | apps/server/src/serverProfileLock.ts:171-190 | Two holders, when a lock is made between one contender's owner read and its link. |
| ProfileLock.RaceBeforeUnlink | apps/server/src/serverProfileLock.ts:171-190 | Two holders, when a lock is made between the inode comparison and the unlink. |
| CommandGate.NothingBeforePrepared | apps/server/src/serverActivation.ts:12-27 | With an activation configured no parked root has started, and no command begun, before the trial was prepared. |
| CommandGate.QueuedInOrder | apps/server/src/serverRuntimeStartup.ts:100-137 | Queued commands begin in the order in which they were queued, none twice, none skipped. |
| CommandGate.GateDecides | apps/server/src/serverRuntimeStartup.ts:95-137 | What a queued command is settled with is decided by the gate: its own exit when it opened, the startup error, without its effect, when it broke. |
| CommandGate.SettledOnce | apps/server/src/serverRuntimeStartup.ts:95-98 | A result once settled, and the gate once set, never change. |
| CommandGate.FailureFirst | apps/server/src/serverRuntimeStartup.ts:413-586 | When startup fails before readiness was signalled no command runs, then or later. |
| CommandGate.CallersGetTheirOwn | apps/server/src/serverRuntimeStartup.ts:115-137 | A caller is given the settled result, its own exit, or the startup error. |
| CommandGate.QueueDrains | apps/server/src/serverRuntimeStartup.ts:105-108 | Once the gate is set the worker always has a step, and each brings the queue nearer to empty. |
| CommandGate.WaitersAreAnswered | apps/server/src/serverRuntimeStartup.ts:105-137 | Once the gate is set every waiting caller can be answered, by steps of the worker and the caller alone. |
| CommandGate.ReadinessDecides | apps/server/src/serverRuntimeStartup.ts:115-137 | When readiness was signalled a caller runs at once, when it failed the caller gives up at once, and before that it queues. |
| CommandGate.BarrierOpensFirst | apps/server/src/serverRuntimeStartup.ts:520-560 | In every run the activation barrier is open, and every root was parked, before readiness is signalled. |
| CommandGate.StartupCompletes | apps/server/src/serverRuntimeStartup.ts:413-586 | A startup without failure comes to its end with the gate and the barrier open. |
| CommandGate.RootsStartInTwo | apps/server/src/serverActivation.ts:12-27 | Behind the open barrier at most two steps of each root bring every root to its start. |
| CommandGate.FailureAborts | apps/server/src/serverRuntimeStartup.ts:413-586 | A startup that fails ends with readiness failed, the gate set and no root left waiting. |
| UpdateManifest.ParseUpdateManifest | scripts/lib/update-manifest.ts:67-186 | The line loop computes the specified reading, with its error and line number. |
| UpdateManifest.SerializeUpdateManifest | scripts/lib/update-manifest.ts:250-277 | The loops produce the specified lines. |
| ManifestLayouts.LayoutReads | scripts/lib/update-manifest.ts:67-186 | Every document of entries in any order, bare or quoted scalars, blank lines and either line ending is read as what it says last for each key, or as the first missing part. |
| ManifestLayouts.PathAndHashAreSkipped | scripts/lib/update-manifest.ts:158-160 | Top-level `path` and `sha512` entries, wherever they stand and whatever they hold, make no difference. |
| ManifestLayouts.FaultIsReported | scripts/lib/update-manifest.ts:67-186 | A document that goes wrong is refused with the error and the number of the line, whatever comes after. |
| ManifestLayouts.ExtrasAreKeyed | scripts/lib/update-manifest.ts:136-166 | Whatever text is read, its extras have proper keys without a meaning of their own. |
| ManifestRoundTrip.ScalarReads | scripts/lib/update-manifest.ts:54-65 | Every printed scalar is read as itself, texts that look like numbers or booleans included, but for a number printed with an exponent, which is read as that text. |
| Decimals.NumeralsAgreeWhen | scripts/lib/update-manifest.ts:61-63 | Two numerals are read as the same number if and only if they state the same value, as `10` and `10.0` do. |
| Decimals.NumeralsAre | scripts/lib/update-manifest.ts:61-63 | A text is a numeral exactly when it is a minus sign or none, digits, and a dot with more digits or nothing. |
| Decimals.SpelledReadsBackWhen | scripts/lib/update-manifest.ts:243-248 | The text of a number is a numeral if and only if it needs no exponent, and then it is read as that number. |
| Decimals.PositionalMeans | scripts/lib/update-manifest.ts:243-248 | No exponent is needed exactly for zero and for numbers from 10^-6 up to below 10^21. |
| Decimals.ExponentSpelled | scripts/lib/update-manifest.ts:243-248 | Otherwise the text has the significant digits, without zeros at the end, and the power of ten of the first. |
| ManifestRoundTrip.PrintedReads | scripts/lib/update-manifest.ts:67-277 | What every printable manifest is read as: itself, with numbers that needed an exponent as texts, or an error when a file size needed one. |
| ManifestRoundTrip.RoundTrip | scripts/lib/update-manifest.ts:67-277 | A printable manifest, its extras in any order, is read back from its text if and only if no number in it is printed with an exponent. |
| ManifestRoundTrip.SmallNumberBecomesText | scripts/lib/update-manifest.ts:243-248 | It happens: the numeral 0.0000001 is printed as `1e-7` and read again as that text. |
| ManifestMerge.MergeExtras | scripts/lib/update-manifest.ts:188-206 | The loop succeeds exactly when no key conflicts, and gives the union; otherwise it reports the first conflicting key in the order of the record. |
| ManifestMerge.CollectFiles | scripts/lib/update-manifest.ts:208-230 | The loop succeeds exactly when entries for one URL are equal, and keeps each URL at its first occurrence. |
| ManifestMerge.MergeUpdateManifests | scripts/lib/update-manifest.ts:208-237 | The method computes the merge, with its error in the order of the checks. |
| ManifestMerge.MergeSucceedsWhen | scripts/lib/update-manifest.ts:188-237 | Merging succeeds exactly for equal versions without contradicting entries and without an inherited name that the first lacks. |
| ManifestMerge.MergeGives | scripts/lib/update-manifest.ts:208-237 | The result holds exactly the entries of both, each URL once, all extras, and the later date. |
| ManifestMerge.LeftMergesWhen | scripts/lib/update-manifest.ts:188-237 | Merging three manifests from the left succeeds exactly when no two of their entries contradict and the first has every inherited name of the others. |
| ManifestMerge.RightMergesWhen | scripts/lib/update-manifest.ts:188-237 | The same from the right, where the second must also have every inherited name of the third. |
| ManifestMerge.MergeAssociates | scripts/lib/update-manifest.ts:188-237 | Both groupings agree, failure included, if and only if the inherited-name exception, a condition on the three manifests, does not apply. |
| ManifestMerge.MergeCommutes | scripts/lib/update-manifest.ts:208-237 | Swapping two manifests that merge gives the same up to file order, unless an inherited name intervenes. |
| ManifestMerge.InheritedNamesTrip | scripts/lib/update-manifest.ts:188-206 | The exception occurs, with an extra called `constructor`. |
| Settings.StripDefaultServerSettings | apps/server/src/serverSettings.ts:372-404 | The loop over keys computes the stripped tree, at every depth. |
| Settings.StripFillRoundTripWhen | apps/server/src/serverSettings.ts:355-404 | Filling the stripped tree in again gives the original for exactly the trees that have every key of the defaults, also when it is stripped by fewer defaults than it is filled from. |
| Settings.StrippedHoldsNoDefault | apps/server/src/serverSettings.ts:372-404 | No value in the stripped tree equals its default. |
| Settings.StrippedIsLeast | apps/server/src/serverSettings.ts:372-404 | The stripped tree is contained in every file that fills to the same settings. |
| Settings.FoldProviderInstanceEnabledFlags | apps/server/src/serverSettings.ts:70-108 | The loop folds every instance and leaves settings alone that have nothing to fold. |
| Settings.FoldedFlags | apps/server/src/serverSettings.ts:70-108 | Each instance with a boolean flag in its configuration is left with one flag, off when either was off, else its own, else the other; the configuration loses that flag only, and everything else stays. |
| Settings.FoldIsIdempotent | apps/server/src/serverSettings.ts:70-108 | Folding again changes nothing. |
| Settings.WrittenStatesFlags | apps/server/src/serverSettings.ts:360-370 | The file states the flag of each optional provider, whatever it is. |
| Settings.ReloadAfterWrite | apps/server/src/serverSettings.ts:256-302 | After a write and a reload the flags of cursor, grok and opencode are what they were under every provider history; only used instances without a flag are switched on. |
| Settings.ReloadIsIdentityWhen | apps/server/src/serverSettings.ts:445-499 | The reload gives exactly what was written if and only if there is no such instance. |
| Settings.UnflaggedInstanceComesBackOn | apps/server/src/serverSettings.ts:256-302 | It happens over any defaults without instances: one used instance that states no flag is on after the reload. |
| Settings.LoadedProviderFlag | apps/server/src/serverSettings.ts:256-302 | Whatever the file, an optional provider has the flag it states, else whether a session of it is remembered. |
| Settings.LoadedInstance | apps/server/src/serverSettings.ts:256-302 | Whatever the file, an instance is as stated, switched on first if it is used, optional and states no flag, and then folded. |
| SecretNames.SecretNameInjective | apps/server/src/serverSettings.ts:126-131 | Well-formed ids and variable names never share a name in the secret store. |
| SecretNames.SecretNamesCollide | apps/server/src/serverSettings.ts:126-131 | Keys with a character that the patterns refuse could share a name: the patterns are needed. |
| SecretNames.NoDash | packages/contracts/src/providerInstance.ts:49-51 | Texts that match the patterns are encoded without a dash, so the separating dash is the only one. |
| ProviderSecrets.SettingsService.PersistProviderEnvironmentSecrets | apps/server/src/serverSettings.ts:553-652 | Both passes over instances and variables leave the specified settings and the specified store. |
| ProviderSecrets.SettingsService.MaterializeProviderEnvironmentSecrets | apps/server/src/serverSettings.ts:508-551 | The loops put the stored value, or nothing, at each marked variable. |
| ProviderSecrets.SettingsService.UpdateSettings | apps/server/src/serverSettings.ts:753-768 | An update leaves the specified state and returns it materialized. |
| ProviderSecretTheorems.RunsStayClean | apps/server/src/serverSettings.ts:553-652 | After any sequence of updates, whatever they contain, no sensitive value is in the settings and every stored secret belongs to a marked sensitive variable. |
| ProviderSecretTheorems.UpdateThenMaterialize | apps/server/src/serverSettings.ts:508-652 | After any update, repeated names included, each variable reads back as given, or, where it is a secret, as the last entry for its key that is no mere marker left it, or as it was read before. |
| ProviderSecretTheorems.SuppliedReadsBackWhen | apps/server/src/serverSettings.ts:508-652 | A newly supplied secret reads back as supplied if and only if it is empty or the deciding entry for its key is sensitive with that value. |
| ProviderSecretTheorems.MarkedReadsBackWhen | apps/server/src/serverSettings.ts:508-652 | A variable posted with its marker reads as before if and only if no other entry decides its key, or the deciding one leaves the same value. |
| ProviderSecretTheorems.DistinctNamesReadBack | apps/server/src/serverSettings.ts:508-652 | Without repeated names each newly supplied value reads back as supplied, each marked variable as it was read before, never as another variable. |
| ProviderSecretTheorems.MarkedValueIsRead | apps/server/src/serverSettings.ts:508-551 | That earlier value is what materializing the earlier settings gave for the variable. |
| ProviderSecretTheorems.RedactedReading | apps/server/src/serverSettings.ts:133-164 | Redacting what was read gives the settings as they are kept. |
| ProviderSecretTheorems.RepostChangesNothingWhen | apps/server/src/serverSettings.ts:133-164 | Posting back what a client was shown changes nothing if and only if no unmarked entry has the key of a stored secret. |
| ProviderSecretTheorems.RepostChangesNothing | apps/server/src/serverSettings.ts:133-164 | Without repeated names posting back what a client was shown changes neither settings nor store. |
| ProviderSecretTheorems.RepeatedNameLosesSecret | apps/server/src/serverSettings.ts:553-652 | It happens in every state: a later, empty entry of the same name takes the secret of an earlier one away. |
| WhenParser.TokenizeWhenExpression | packages/shared/src/keybindings.ts:127-174 | The index loop computes the token list or fails as specified. |
| WhenParser.Parser.ParsePrimary | packages/shared/src/keybindings.ts:181-205 | Result and index are those of the grammar. |
| WhenParser.Parser.ParseUnary | packages/shared/src/keybindings.ts:207-226 | Counting and re-wrapping the signs gives the grammar's result and index. |
| WhenParser.Parser.ParseAnd | packages/shared/src/keybindings.ts:228-240 | The loop builds the conjunction to the left, as the grammar does. |
| WhenParser.Parser.ParseOr | packages/shared/src/keybindings.ts:242-254 | The loop builds the alternatives to the left, as the grammar does. |
| WhenParser.ParseKeybindingWhenExpression | packages/shared/src/keybindings.ts:176-259 | The whole reader: a tree for exactly the texts the grammar derives within the limits, all tokens used. |
| WhenRoundTrip.PrintedReads | apps/server/src/keybindings.ts:159-170 | Any printed condition, followed by anything that does not continue a word, is split into its own tokens. |
| WhenRoundTrip.PrintedConditionsReadBack | apps/server/src/keybindings.ts:159-170 | A printed tree is read back as itself if and only if its parentheses nest at most 64 deep. |
| WhenRoundTrip.PrintingIsUnambiguous | apps/server/src/keybindings.ts:159-170 | No two trees over words are printed alike, however deep. |
| WhenRoundTrip.ReadConditionsSurvivePrinting | packages/shared/src/keybindings.ts:176-259 | Whatever the reader gave is printed and read again as the same tree, within the same limit. |
| WhenRoundTrip.ChainsNestWhenPrinted | packages/shared/src/keybindings.ts:228-240 | Chains of any length are read, and those of more than 64 signs cannot be read once printed. |
| WhenPrecedence.SpellingReads | packages/shared/src/keybindings.ts:176-259 | Every tree is what its spelling with the fewest parentheses is read as, if and only if that stays within the limits: signs bind closest, then conjunctions, then alternatives, each to the left. |
| WhenPrecedence.MixesRead | packages/shared/src/keybindings.ts:228-254 | So an alternative of a word and a conjunction of two needs no parentheses, and the other short mixes likewise. |
| Shortcuts.ParseKeybindingShortcut | packages/shared/src/keybindings.ts:63-125 | The loops compute the specified reading. |
| ShortcutReading.TextSays | packages/shared/src/keybindings.ts:63-125 | A text is read if and only if it has no empty word and exactly one key; its modifiers are those named under either of their names. |
| ShortcutReading.WordsOfParts | packages/shared/src/keybindings.ts:63-84 | The words are the parts between plus signs, in lower case and trimmed; any number of signs at the end are one plus key. |
| Shortcuts.EncodeShortcut | apps/server/src/keybindings.ts:146-157 | The pushes produce the specified text. |
| Shortcuts.EncodingTellsShortcut | apps/server/src/keybindings.ts:146-157 | Two shortcuts are written alike if and only if their modifiers agree and their keys are the same, or a space and the word for it. |
| ShortcutRoundTrip.ParsedIsReadable | packages/shared/src/keybindings.ts:63-125 | Reading gives only keys that are lower-case, trimmed and no modifier names. |
| ShortcutRoundTrip.EncodedReadsBack | apps/server/src/keybindings.ts:146-157 | Every shortcut that can be read is read back from its written form. |
| ShortcutRoundTrip.SameContextMeans | apps/server/src/keybindings.ts:112-125 | Two rules clash if and only if their keys are read as the same shortcut and their conditions are the same text. |
| KeybindingStore.CompileResolvedKeybindingsConfig | packages/shared/src/keybindings.ts:281-292 | The loop keeps the rules that resolve, at most the last 256. |
| KeybindingStore.Keybindings.LoadRuntimeCustomKeybindingsConfig | apps/server/src/keybindings.ts:371-424 | The loop gives the usable rules in order and an issue with the index of every other entry. |
| KeybindingStore.Keybindings.UpsertKeybindingRule | apps/server/src/keybindings.ts:638-679 | File and cache change as one specified operation, or not at all when the file is no array. |
| KeybindingStore.Keybindings.RemoveKeybindingRule | apps/server/src/keybindings.ts:680-700 | The same for a removal, which also fails when more rules than allowed would be written. |
| KeybindingStore.Keybindings.SyncDefaultKeybindingsOnStartup | apps/server/src/keybindings.ts:475-565 | The loop over the defaults leaves the specified file and an empty cache. |
| KeybindingTheorems.UpsertedShape | apps/server/src/keybindings.ts:638-665 | The upserted rule is last and occurs once, the replaced one is gone, and beyond the cap of 256 only the oldest are dropped. |
| KeybindingTheorems.UpsertIsIdempotent | apps/server/src/keybindings.ts:638-679 | The same upsert again leaves the file as it is. |
| KeybindingTheorems.RemoveUndoesUpsert | apps/server/src/keybindings.ts:638-700 | Removing a new rule after upserting it gives the other rules back, less the oldest beyond the cap. |
| KeybindingTheorems.ApplyKeeps | apps/server/src/keybindings.ts:449-454 | Each operation keeps the cached rules those of a reload, and the cached issues too unless it writes a rule that does not resolve. |
| KeybindingTheorems.RunsAgree | apps/server/src/keybindings.ts:449-454 | After any sequence of upserts, removals, syncs and reads the cached rules are those of a reload and within the cap; the whole cached state is if and only if the file is no array or the last change was not an upsert of a rule that does not resolve. |
| KeybindingTheorems.UnusableUpsertHidesIssue | apps/server/src/keybindings.ts:666-676 | After an upsert the cache is what a reload gives if and only if the rule resolves. |
| KeybindingTheorems.UpsertedTakesPrecedence | apps/server/src/keybindings.ts:209-226 | The upserted rule is the last of the resolved rules, over all defaults. |
| KeybindingTheorems.MergedShape | apps/server/src/keybindings.ts:209-226 | Merging keeps every custom rule, last and in order; before them stand, in their order, exactly the defaults of other commands, or the last of those up to the cap. Without custom rules these are all defaults. |
| KeybindingTheorems.SyncWritesDefaults | apps/server/src/keybindings.ts:475-520 | Without a file the first sync leaves one that reads as the defaults. |
| KeybindingTheorems.SyncSparesIssues | apps/server/src/keybindings.ts:500-520 | A file with issues is left alone. |
| KeybindingTheorems.SyncAddsMissing | apps/server/src/keybindings.ts:475-565 | Else the rules stay, in order and first, exactly the defaults with no command or shortcut in common with them are added, and none is missing afterwards. |
| KeybindingTheorems.SyncRepeatsWhen | apps/server/src/keybindings.ts:475-565 | For all defaults and files, a second sync changes the file again if and only if the first lost a default. |
| KeybindingTheorems.SyncIsIdempotent | apps/server/src/keybindings.ts:475-565 | So it changes nothing when the first dropped nothing. |
| KeybindingTheorems.TruncatedSyncRepeats | apps/server/src/keybindings.ts:505-550 | For every list of defaults: a full list that begins with a default sharing nothing with the rest, while a default is missing, is changed again by the second sync. |
| KeybindingTheorems.FullListRepeats | apps/server/src/keybindings.ts:505-550 | Any three defaults that share no command or shortcut make up such a list. |
| GraphSize.Walk.StaticGraphSize | apps/web/vite.config.ts:72-88 | One call adds a set of names in reach, closed under the imports of its chunks, and returns the size of the chunks among them. |
| GraphSize.GraphSizeOf | apps/web/vite.config.ts:72-89 | From an entry it returns the sum over the chunks reachable through chunks, each once, in any graph. |
| GraphSize.OrderDoesNotMatter | apps/web/vite.config.ts:84-87 | Reordering or repeating imports does not change that sum. |
| GraphSize.GenerateBundle | apps/web/vite.config.ts:57-98 | The build passes if and only if every entry and its static graph are within budget; an error names an entry that is not and its true size. |
| ReleaseTags.CompareStableVersions | scripts/resolve-previous-release-tag.ts:121-144 | The index loop computes the specified comparison. |
| ReleaseTags.StableCompareIsTotalPreorder | scripts/resolve-previous-release-tag.ts:105-144 | It is a total preorder whenever the collation is, with numbers and words mixed and lists of any length. |
| ReleaseTags.StablePrecedence | scripts/resolve-previous-release-tag.ts:105-144 | A version is below another exactly by the rules of section 11 of SemVer 2.0.0, with the collation for ASCII order. |
| ReleaseTags.IdentifierPrecedence | scripts/resolve-previous-release-tag.ts:102-119 | Identifiers of digits compare by value and come before words; words compare by the collation. |
| ReleaseTags.NightlyPrecedence | scripts/resolve-previous-release-tag.ts:167-173 | Nightlies compare by core, then date, then run number. |
| ReleaseTags.NightlyCompareIsTotalPreorder | scripts/resolve-previous-release-tag.ts:167-173 | The nightly comparison is a total preorder. |
| PreviousRelease.StableTagReadsBack | scripts/resolve-previous-release-tag.ts:146-165 | Every stable version is read from its tag, whatever build metadata the tag carries. |
| PreviousRelease.NightlyIsNotStable | scripts/resolve-previous-release-tag.ts:152-158 | A nightly tag, of either format, is never taken for a stable one. |
| TagSpelling.StableSpellingReads | scripts/resolve-previous-release-tag.ts:146-165 | Every spelling of a version is read as what its parts state, unless its first identifier is `nightly`. |
| TagSpelling.StableTagsAreSpelled | scripts/resolve-previous-release-tag.ts:146-165 | Nothing else is a stable tag. |
| TagSpelling.NightlySpellingReads | scripts/resolve-previous-release-tag.ts:175-191 | Every spelling of a nightly, with or without the old prefix, is read as what its parts state. |
| TagSpelling.NightlyTagsAreSpelled | scripts/resolve-previous-release-tag.ts:175-191 | Nothing else is a nightly tag. |
| PreviousRelease.ResolvedIsGreatestBelow | scripts/resolve-previous-release-tag.ts:193-230 | The returned tag is the first listed among the greatest strictly below the current one; none is returned exactly when there is none; an unreadable current tag is an error. |
| StableSort.SortedHead | scripts/resolve-previous-release-tag.ts:202-210 | What a stable sort puts first is the first of the least elements. |
| GitLog.ParseUpstreamGitLog | scripts/audit-t3code-upstream.ts:176-212 | The token loop computes the specified commits, with their areas. |
| GitLog.RenderedLogReadsBack | scripts/audit-t3code-upstream.ts:176-218 | Every log whose texts hold no NUL is read back with paths in order, whatever hashes, subjects and paths say. |
| GitLog.AreasFacts | scripts/audit-t3code-upstream.ts:160-190 | The areas of a commit are exactly those of its paths, each once, in ascending order. |
| GitLog.ParseNameStatusPaths | scripts/audit-t3code-upstream.ts:237-250 | The token loop gives exactly the specified paths, each once, in ascending order. |
| GitLog.OthersAreSkipped | scripts/audit-t3code-upstream.ts:214-250 | A token that is no status is passed over, in a log and in a diff, with nothing taken after it. |
| GitLog.AscendingIsUnique | scripts/audit-t3code-upstream.ts:249-249 | A set of texts has one ascending list, so the returned list is determined by the paths. |
| GitLog.RenderedDiffReadsBack | scripts/audit-t3code-upstream.ts:237-250 | The paths of every diff are found, both of a rename, and nothing else. |
| GitLog.LongestPrefixWins | scripts/audit-t3code-upstream.ts:266-278 | A path is moved by a mapping with the longest matching prefix, whatever the collation, and stays without a match. |
| AttachmentId.SegmentsAre | apps/server/src/attachmentStore.ts:22-37 | The segments are exactly the texts of at most 80 lower-case letters, digits, dashes and underscores without double dash and with a letter or digit at both ends. |
| AttachmentId.CleanUpIsIdempotent | apps/server/src/attachmentStore.ts:22-37 | Cleaning a segment again changes nothing, across the cut at 80 characters too. |
| AttachmentId.CreatedIdParses | apps/server/src/attachmentStore.ts:39-61 | Parsing a created id gives exactly its segment, for every thread id that has one and every lower-case UUID. |
| AttachmentId.CreatedIdsDiffer | apps/server/src/attachmentStore.ts:39-45 | An id determines its segment and its UUID. |
| AttachmentText.SegmentJoinsWords | apps/server/src/attachmentStore.ts:22-37 | The segment consists of the runs of letters, digits and underscores of the thread id, in lower case, with single dashes between them, cut at 80 characters and without marks at its ends. |
| AttachmentText.IdsAre | apps/server/src/attachmentStore.ts:11-61 | An id is read exactly when its name is words with single dashes, a dash and a UUID, and as those words in lower case. |
| DataUrl.Scan | apps/server/src/imageMime.ts:81-97 | The first pass accepts exactly the payloads of alphabet and white space, and counts the former. |
| DataUrl.Compact | apps/server/src/imageMime.ts:99-111 | The second pass fills a buffer of the counted length exactly, with the payload less its white space. |
| DataUrl.ParseBase64DataUrl | apps/server/src/imageMime.ts:47-127 | A URL is accepted if and only if its header names a type and base64 and its payload, less white space, is non-empty padded base64 (section 4 of RFC 4648); that text is returned. |
| DataUrl.HeadersAre | apps/server/src/imageMime.ts:47-80 | A header is read exactly when it is `data:` in any case, then parts between semicolons of which the first that is not blank is the type and the last is `base64` in any case, then a comma. |
| DataUrl.WhitespaceIsIgnored | apps/server/src/imageMime.ts:80-111 | White space anywhere in the payload makes no difference. |
| DataUrl.EncodedIsAccepted | apps/server/src/imageMime.ts:113-126 | The encoding of any non-empty bytes is accepted and returned unchanged. |
| DataUrl.AcceptedIsEncodedWhen | apps/server/src/imageMime.ts:113-126 | A payload that is accepted is the encoding of some bytes if and only if the unused bits before its padding are zero. |
| DataUrl.PaddedTextIsAccepted | apps/server/src/imageMime.ts:47-127 | A URL of any plain type around any padded base64 is accepted with exactly that text. |
| DataUrl.LeftoverBitsAreNotChecked | apps/server/src/imageMime.ts:113-126 | A whole URL is accepted although no encoder writes its payload. |

## Left out

- Effect runtime, layers, HTTP and WebSocket routes, Electron, the web and mobile screens: wiring without a property of their own.
- `migrate-dev-db.ts`: its meaning is in SQL run by an engine that is not part of this model.
- `resolveTextGenerationProvider`, `countAreas`, `countPathOverlap`, `findMissingCommitDispositions`, `inferImageExtension`, `resolveAttachmentPathById`: they would add only easy members.
- Launcher: reason texts of terminal updates, the service stop marker, the contents of messages beyond what decides a branch, and the wait before a killed child is killed again. Of the timer it is modelled what it is set for, not how long it runs; of the transition queue, that any event, stale or not, may be handled when the launcher is idle.
- Launcher: assumed are that children die with the launcher, that nobody else writes the database, that renames and writes of the state document are atomic, and that update ids are fresh.
- LauncherProgress.QuietStepsAdvance: excludes a `prepared` message of an active server and an uncaught error of a child, which end the launcher while an update is pending, as it excludes failures of the restore.
- LauncherProgress.TimerIsSet: a stop signal clears the timer when it arrives, ahead of its queued transition; the model clears it with the transition, so the moment between, in which an idle launcher with a pending update has no timer, is not modelled.
- Profile lock and command gate are step systems without a class, since what matters in them is the interleaving.
- Profile lock: the clock is reduced to the assumption that, in undisturbed runs, no creator is taken for old while it still writes.
- Manifests: characters are code points; numbers are exact decimals, as the original's are up to 15 significant digits, so rounding of longer numerals and overflow to infinity are not modelled; the printer takes its keys in any order where the original sorts them.
- Settings: schema decoders are key-wise filling from the defaults, a number is a real, and an absent and an undefined field are the same; the patch applied to the settings is any new settings.
- Secrets: failures of the secret store in the middle of an update, file watching, and the UTF-8 coding of values.
- Shortcuts: lower-casing is that of ASCII letters; length limits on keys and conditions are left to the schema.
- ShortcutRoundTrip.SameContextMeans: requires keys without NUL, which separates key and condition in the compared text.
- Keybindings: edits of the file by others between operations, and log messages.
- Release tags: numbers are exact; the collation is any total preorder.
- Attachment ids: lower-casing and path normalisation are any functions that leave plain text alone; randomness of the UUID.
- Data URLs: lower-casing of the header is that of ASCII letters; the buffer holds characters instead of bytes.
- Bundle sizes: the encoded size of a chunk is given.
