# FWRouter rollout and configuration model

FWRouter replaces its own backend on a running host, publishes its UI and host files atomically,
rewrites the Xray and Mihomo configuration, and keeps provider data in SQLite. This project
models the parts of it whose correctness depends on order, on crashes at awkward moments or on
two pieces of code agreeing, and proves what they are for.

**Rollout.** `pending.json` drives stop, source compare-and-swap (`transfer`), Mihomo quiesce and
release, database rebuild and resume. `RolloutLog` describes every durable write, unit or container
action and observation as an event of a history, and says which event may follow which history.
`Lifecycle.Host` carries out the commands; every call it makes to the outside may fail or be the
last one of its process (faulty weather), and in hostile weather the world moreover changes
arbitrarily around each call. Each command is proved to produce only legal histories in every
weather, to leave when it is cut only what its contract names, and in calm weather to succeed exactly
under a stated condition (a database rebuild: to reach its child exactly under one, and to succeed
exactly if the child did and left what can be verified). `RolloutSafety` proves what holds in every
legal history. `Deploy` is `local_deploy.apply` as a client of these commands: `DeploySafety` proves
what its own writes are preceded by, and `Deploy.CutAnywhereThenCalm` when runs interrupted anywhere
are followed by a successful one. `BackendTrees` and `Manifests` are the tree walkers, `Installer`
the restartable installation of the backend: copied files, then removed ones.

**Publication.** `UiPublication` is the publication directory as a state machine over single
filesystem steps, and the class that takes these steps; `UiDigest` and `UiRecords` are the content
digest. `HostPublication` is the host file plan and its compare-and-swap per file.

**Locks.** `WriterGuard` interleaves threads of any number of processes, one atomic step at a time;
`GuardProgress` proves which of their steps are possible.
`Descriptors` is a descriptor table in which a lock belongs to the open file.

**Xray.** `XrayConfig` gives the managed configuration its first-match routing meaning, which
`XrayRouting` spells out directive by directive; `XrayClients` compares the two client merges,
`XrayMerges` says what both have to leave, `XrayAdapter` holds the loops and the adapter.

**Sequential algorithms.** `RateGate`; `SchemaSql` with `SqlPieces`; `ProviderTables` with
`ProviderHistory` and `ProviderRows`; and `ConfigLines` with `ConfigScan`, `ConfigSections` and
`ConfigRoundTrip`, which writes a configuration and reads it back.

`Outcomes` holds the option and result types (`Failed` is a raised exception or an interrupted
process), `Ordering` code-point order and sorting, `Text` the string methods.

Some promises do not hold of the code. They are stated as they are, with the exact condition or a
concrete counterexample: `Lifecycle.InterruptedRebuildStopIsStuck`,
`Lifecycle.ChangedCacheBlocksQuiesce`, `Lifecycle.SecondTransferBlocksRelease`,
`Deploy.CutAnywhereThenCalm`, `Installer.InstallableExactly`, `Descriptors.RunHandsOverTheLock`, the
failure clauses of `Descriptors.Process.ComponentLock`, `DeploySafety.WritesKeepTheCheckpoint`,
`XrayClients.ListsAgree`, `XrayConfig.MaterializationIsIdempotent`, `XrayConfig.DirectTagIsDirect`,
`RateGate.RefusalSpendsQuotaExactly`, `SchemaSql.IdempotentExactly`. A database rebuild is
refused as "another lifecycle operation is pending" whenever a checkpoint file exists that is no
open rebuild, even that of a completed operation; the model follows the code
(`RolloutSafety.RebuildIsTheFirstOperation`). The descriptors that `_restore_child_fd` puts back at
8 and 9 become inheritable, whatever they were before.

`dafny verify dfyconfig.toml` checks the whole project.

## Model

| member | source | states |
|---|---|---|
| Manifests.ValidateManifest | installer/controlled_backend_lifecycle.py:218-242 | The one-pass check with a running `previous` accepts exactly the non-empty manifests that are strictly sorted as a whole, name only safe included paths and stay within both limits. |
| Manifests.SplitJoin | installer/controlled_backend_lifecycle.py:141-170 | Splitting a joined relative path gives its components back, so a manifest path names one file. |
| Manifests.ExcludedWhateverTheStem | installer/controlled_backend_lifecycle.py:105-112 | Every name with one of the seven endings is excluded, every `.env` variant and every dated backup, whatever the rest of the name is, and the five fixed names are. |
| Manifests.ExcludedForAReason | installer/controlled_backend_lifecycle.py:105-112 | Conversely every excluded name is one of the five, starts with `.env.`, holds `.bak-` or ends in one of the seven endings, and the place is given. |
| Ordering.LessExactly | installer/controlled_backend_lifecycle.py:166-169 | The order of the sorted manifest is the code-point order: a proper prefix comes first, else the smaller code point where the two first differ. |
| BackendTrees.BackendManifest | installer/controlled_backend_lifecycle.py:141-170 | The stack walk over a tree returns the manifest of the tree's included files, and fails exactly when the recursive definition has none. |
| BackendTrees.BackendPaths | installer/controlled_backend_lifecycle.py:173-204 | The second, names-only walk agrees with its recursive definition, including every refusal. |
| BackendTrees.WalkersAgree | installer/controlled_backend_lifecycle.py:141-204 | The two walkers succeed on the same trees, the empty one excepted, and name the same files. |
| BackendTrees.BuiltManifestIsValid | installer/controlled_backend_lifecycle.py:141-242 | For every directory tree a manifest that is built at all is strictly sorted and passes the checkpoint's validator. |
| BackendTrees.ManifestListsExactlyTheFiles | installer/controlled_backend_lifecycle.py:105-170 | A path with a size and digest is in the manifest if and only if no part of it is excluded and the tree holds that regular file there. |
| BackendTrees.ManifestFailsExactly | installer/controlled_backend_lifecycle.py:141-170 | There is no manifest if and only if the root is no directory, some path past no excluded name leads to a link or special file, or the included files are none, or more than 10000, or more than 512 MiB. |
| BackendTrees.PreflightExport | installer/controlled_backend_lifecycle.py:207-211 | Succeeds if and only if the installed tree can be listed and has no file the source lacks. |
| BackendTrees.VerifyExport | installer/controlled_backend_lifecycle.py:245-248 | Succeeds if and only if the installed tree's manifest is the expected one. |
| BackendTrees.OverlayMakesExportVerify | installer/controlled_backend_lifecycle.py:207-248 | With no extra file in the installed tree, writing every source file over it leaves a tree whose manifest is exactly the source's. |
| BackendTrees.OverlayLookup | installer/install.sh:247 | After the overlay a path holds its manifest entry, or what it held before if no entry has that path. |
| Checkpoints.ReadableHistoryIsAWalk | installer/controlled_backend_lifecycle.py:327-413 | A readable checkpoint's source history is a chain of at most 16 transitions from the first digest to the bound manifest's, each step linked to the previous and changing the digest. |
| RolloutSafety.CheckpointIsAlwaysSound | installer/controlled_backend_lifecycle.py:327-413 | In every legal history from an empty state directory, cut anywhere, the checkpoint on disk passes its reader, has a linked history ending at the bound manifest, excludes maintenance together with transitions or quiescence, and keeps pending units a duplicate-free subset of the recorded timers. |
| RolloutSafety.OperationOnlyAdvances | installer/controlled_backend_lifecycle.py:1005-1082 | Any two writes of one operation, in order, differ by progress only: same recorded units and origin, a growing history, forward runtime phases with every pinned identity fixed, nothing after completion. |
| RolloutSafety.CompletedQuiescenceIsReleased | installer/controlled_backend_lifecycle.py:1361-1403 | A completed operation that quiesced Mihomo is in phase released and moved its source at most once. |
| RolloutSafety.ActionsAreRecordedFirst | installer/controlled_backend_lifecycle.py:1173-1222 | A unit is stopped or started only after a durable pending checkpoint, still the last one written, recorded it active. |
| RolloutSafety.CompletionSawEveryUnit | installer/controlled_backend_lifecycle.py:1361-1403 | Status complete implies that every recorded dependent was seen active by the same command that wrote it. |
| RolloutSafety.TransferFollowsStoppedOldTree | installer/controlled_backend_lifecycle.py:1005-1082 | A write that moves the source follows a reading of the installed tree as exactly the old source, and after it a reading of every unit as inactive with no start since. |
| RolloutSafety.ContainerActionsArePinned | installer/controlled_backend_lifecycle.py:772-962 | The container is stopped or started only by its pinned id, under a pending checkpoint that is the last write and in the matching phase. |
| RolloutSafety.ReleaseRestoresBaseline | installer/controlled_backend_lifecycle.py:877-962 | When the runtime is recorded as released, the last reading since any container action equals the reading the operation first recorded: same container, same unit state, same running state. |
| RolloutSafety.RebuildIsTheFirstOperation | installer/controlled_backend_lifecycle.py:1225-1324 | Every earlier write belongs to the rebuild's own operation: it can only be the first of a state directory. |
| Lifecycle.Host.ReadCheckpoint | installer/controlled_backend_lifecycle.py:327-413 | What a legal history left on disk always passes the reader: in calm weather reading fails only if there is no file. |
| Lifecycle.Host.Write | installer/controlled_backend_lifecycle.py:294-324 | An atomic write leaves the old or the new checkpoint, never a mixture, and never reports success with the old one. |
| Lifecycle.Host.Stop | installer/controlled_backend_lifecycle.py:1173-1222 | A pending checkpoint is never replaced; success leaves it pending with no job running and exactly the recorded stoppable units down, a fresh operation recording exactly the units then active; cut anywhere it has done nothing, or stands at one stage of STOP_ORDER, under the checkpoint it found or under a fresh one of what was active; in calm weather it succeeds if and only if `StopAdmits`. |
| Lifecycle.Host.TakeDown | installer/controlled_backend_lifecycle.py:1212-1222 | Cut anywhere it stands at one stage: the recorded units down are those of a prefix of STOP_ORDER; the API is down only if every other recorded stoppable unit is and no job runs; success leaves exactly those down. |
| Lifecycle.Host.Transfer | installer/controlled_backend_lifecycle.py:1005-1082 | The checkpoint is unchanged or bound to the requested source by exactly one more transition, and in every weather it moves, or success is reported, only if the bound digest is the expected old one; a replay changes nothing and is the last recorded transition exactly; a write happens only if `TransferAdmits`, and in calm weather success is equivalent to it. |
| Lifecycle.Host.Quiesce | installer/controlled_backend_lifecycle.py:772-874 | Only the runtime record of the approved operation, on the approved source, changes on disk and only the container and its cache outside; success leaves the approved container recorded as quiesced and reading back so; in calm weather equivalent to `QuiesceAdmits`. |
| Lifecycle.Host.Release | installer/controlled_backend_lifecycle.py:877-962 | Only the phase of the runtime record moves; success leaves the approved container released in its baseline running state; in calm weather equivalent to `ReleaseAdmits`, which includes the ownership of at most one forward compare-and-swap. |
| Lifecycle.Host.Rebuild | installer/controlled_backend_lifecycle.py:1225-1324 | With any checkpoint that is no open rebuild, or with units active, it refuses and changes nothing; in calm weather its child is started if and only if `RebuildAdmits`, and it succeeds if and only if the child was started, succeeded and left a published database and its pinned backup; cut before the child it has only stopped recorded units, and after it only the maintenance record and the backups differ. |
| Lifecycle.Host.ReachChild | installer/controlled_backend_lifecycle.py:1229-1264 | Everything before the rebuild child: from a fresh state or an interrupted rebuild it gets there, in calm weather, exactly under `RebuildAdmits`, and leaves a pending checkpoint alone. |
| Lifecycle.Host.Resume | installer/controlled_backend_lifecycle.py:1361-1403 | The checkpoint is unchanged or settled with the timers that still wait; a unit is started only if the checkpoint restores it; success leaves every restored unit active and reports the status written; in calm weather equivalent to `ResumeAdmits`. |
| Lifecycle.Host.RestoreUnits | installer/controlled_backend_lifecycle.py:1384-1403 | The loop over RESTORE_ORDER leaves every recorded unit seen active or waiting, waiting units being distinct recorded timers, and starts nothing else even when cut. |
| Lifecycle.Host.RunCommands | installer/controlled_backend_lifecycle.py:1406-1468 | Any sequence of commands, in any weather and each cut anywhere, keeps the history legal and the checkpoint on disk sound. |
| Lifecycle.Host.HistoryIsLegal | installer/controlled_backend_lifecycle.py:1406-1468 | Whatever a host did is a legal history, so all of `RolloutSafety` applies to it. |
| Lifecycle.FreshStopLeavesNothing | installer/controlled_backend_lifecycle.py:1173-1222 | A finished fresh stop with no job running leaves no rollout unit active. |
| Lifecycle.FreshStopAdmitsOneTransfer | installer/controlled_backend_lifecycle.py:1005-1082 | After a fresh stop the compare-and-swap to any other source is admitted, and the same request again as a replay. |
| Lifecycle.StaleTransferIsRefused | installer/controlled_backend_lifecycle.py:1036-1056 | A request whose expected old digest is neither the bound one nor the start of the last transition is never admitted, whatever else it says. |
| Lifecycle.TransferExactly | installer/controlled_backend_lifecycle.py:1005-1082 | A transfer is admitted, by recorded and visible fields alone, if and only if the operation is the named pending one without maintenance, the selected source is the requested one, nothing is active, a quiesced container stands still as recorded, and either the expected old digest is bound, its tree installed and fewer than 16 transitions recorded, or the request is the last recorded transition and either of its trees is installed. |
| Lifecycle.QuiesceExactly | installer/controlled_backend_lifecycle.py:772-874 | A quiescence is admitted if and only if the operation, source and container are the approved ones, the source never moved and is installed, nothing is active, and the container is as a first request, a retry with an unchanged cache, or a finished quiescence needs it. |
| Lifecycle.ReleaseExactly | installer/controlled_backend_lifecycle.py:747-962 | A release is admitted if and only if operation, source and container are the approved ones, the source moved at most once and from the held one, the container is the recorded one, and either it was released to its recorded running state already, or it is held and the API is healthy, or, just in time, nothing is active, the bound source is installed and a stopped container has its recorded cache. |
| Lifecycle.ResumeExactly | installer/controlled_backend_lifecycle.py:1361-1384 | A resume is admitted if and only if the operation is complete, or rebuild and runtime are finished, the API is healthy, the bound source is selected and installed, and the listener is up where a Gateway is recorded. |
| Lifecycle.StopExactly | installer/controlled_backend_lifecycle.py:1173-1211 | A stop is admitted if and only if every installed path is a path of the selected source, none of the four jobs is active, and either the pending operation is repeated on its own source and for the same maintenance, or the API is active. |
| Lifecycle.InterruptedRebuildStopIsStuck | installer/controlled_backend_lifecycle.py:1239-1264 | An unfinished rebuild blocks stop, transfer, quiesce, release and resume in every state of the world, and is itself continued if and only if selected source, installed tree and bound manifest agree, the API unit takes part, the pinned backup is there and nothing is active; so with a unit active no command at all is admitted. |
| Lifecycle.ChangedCacheBlocksQuiesce | installer/controlled_backend_lifecycle.py:843-874 | In phase stop_pending a quiesce retry is admitted only with the recorded cache digest, and transfer, release and resume are not admitted at all. |
| Lifecycle.StoppingCanChangeTheCache | installer/controlled_backend_lifecycle.py:843-874 | From every admitted retry in phase stop_pending a stop can lead to a state in which the retry is no longer admitted. |
| Lifecycle.SecondTransferBlocksRelease | installer/controlled_backend_lifecycle.py:747-769 | Two transitions while the container is held make release, quiesce and resume inadmissible in every state of the world. |
| Lifecycle.SecondTransferIsAdmitted | installer/controlled_backend_lifecycle.py:1005-1082 | At every held quiesced checkpoint with one transition a second one is admitted, which leads to the blocked state. |
| Lifecycle.ResumeLeavesOnlyTimers | installer/controlled_backend_lifecycle.py:1384-1403 | A settled checkpoint is complete, or only recorded timers wait; with catch-up, or with no recorded timer, it is complete. |
| Installer.RestartedInstallation | installer/install.sh:246-253 | Once the first i steps of copying and removing are done, doing the first j again from the start leaves exactly what the longer of the two leaves. |
| Installer.PartlyInstalledIsInstallable | installer/install.sh:246-253 | An installation interrupted at any copied or removed file leaves a tree on which the whole installation still fits and ends at the selected manifest. |
| Installer.InstallableExactly | installer/install.sh:246-253 | Where every step fits, the installation ends at exactly the selected manifest, also when cut and started again, if and only if no selected file is listed as obsolete and every installed file that is not selected is. |
| Installer.NoExtrasMeansInstallable | installer/controlled_backend_lifecycle.py:207-211 | After a preflight that found no extra file, and with no selected file listed as obsolete, that every step fits is enough. |
| Installer.RemoveChangesOnePath | installer/install.sh:251 | Removing an obsolete path takes its own file away and no other. |
| Installer.InstalledLookup | installer/install.sh:246-253 | After the installation a path holds its selected file, or what it held before, unless it is listed as obsolete. |
| DeploySafety.WritesFollowOwnershipAndLock | installer/local_deploy.py:827-861 | Whatever commands other processes run in between, a deployment publishes or installs only after, in this order, choosing the source and reading the installed tree, owning the pending checkpoint bound to that source, taking the component lock and keeping it, reading the same checkpoint under it again, and then finding, by a reading under the lock, the same tree installed. |
| DeploySafety.WritesFollowStoppedUnits | installer/local_deploy.py:850-861 | Before such a write, and after it found the old tree under the lock, it found every rollout unit down: each seen inactive and not started or seen active since, with no other command begun in between. |
| DeploySafety.WritesKeepTheCheckpoint | installer/local_deploy.py:844-861 | The checkpoint a deployment writes or starts the API under is pending and was reread under the same lock when it was the last one written; it still is if and only if no other process wrote one since, which the component lock does not prevent. |
| DeploySafety.ApiStartsOnSelectedSource | installer/local_deploy.py:862-895 | The API is started only after a reading, under the same lock and with no installation since, found installed exactly the manifest that the reread checkpoint is bound to. |
| Deploy.Apply | installer/local_deploy.py:664-908 | In every weather it writes only as licensed and releases the lock; begun on a deployable host and cut anywhere it leaves the host deployable, recoverable, finished or cut in its own stop; a recoverable host stays recoverable or is finished; success means the promised end state; in calm weather it succeeds from every recoverable or deployable state; stuck, it refuses and changes nothing. |
| Deploy.CutAnywhereThenCalm | installer/local_deploy.py:664-908 | Begun on a deployable host and interrupted any number of times anywhere, the stop included, one more run in calm weather fails if and only if an operation is pending, a unit is active, and the pending operation is not one that only has to be resumed with everything in place; otherwise the selected backend, UI and host pair are in place. |
| Deploy.OnlyCutInStopIsStuck | installer/local_deploy.py:788-855 | Of all places an apply can be cut in, exactly a cut in its own stop leaves it stuck. |
| Deploy.EveryUpgradeCanGetStuck | installer/controlled_backend_lifecycle.py:1173-1222 | On every deployable host whose installed source is not the selected one, a cut of the stop at any stage before the API went down leads there, from the fresh checkpoint with every unit still up on. |
| Deploy.StopAgainRecovers | installer/controlled_backend_lifecycle.py:1173-1222 | From every such cut the owner's stop is admitted again from the old source, and leaves the host recoverable. |
| Deploy.InterruptedThenCalm | installer/local_deploy.py:664-908 | Any number of interrupted runs from a recoverable state followed by one calm run end with the selected source installed and the operation complete or only recorded timers pending. |
| Deploy.Reinspect | installer/local_deploy.py:842-855 | The second look succeeds only if the checkpoint, then the installed tree, then the units are as they were, each read again after anything other processes did, which licenses the writes; in calm weather also if so. |
| Deploy.InstallBackend | installer/install.sh:246-253 | Copies and removals one by one, cut anywhere, keep the tree installable; success leaves the selected manifest; in calm weather an installable tree is installed. |
| Deploy.OwnerTransfer | installer/local_deploy.py:713-743 | Success means the owned checkpoint is the only one on disk, pending and bound to the selected source; a cut leaves the old or the new binding; with units active or no checkpoint it fails and leaves the disk alone. |
| Deploy.OwnerResume | installer/local_deploy.py:745-761 | Resuming the expected operation keeps the host recoverable or finishes it, and reports what is on disk. |
| Deploy.FindOldSource | installer/local_deploy.py:265-311 | Finds a local commit if and only if one of the first thousand has exactly the installed backend, and then one that has. |
| Deploy.Check | installer/local_deploy.py:638-661 | Changes nothing; in calm weather answers exactly what the state calls for, and "nothing to do" only where the host carries the selected checkout and is healthy. |
| Deploy.DiagnoseExactly | installer/local_deploy.py:597-661 | The answers of `check`, each with its exact condition on what is selected, installed, recorded and running. |
| Deploy.DeployableExactly | installer/local_deploy.py:664-681 | An apply may start, in a cooperative environment, if and only if no operation is pending, API and Gateway are up, no job runs, the installation fits, and the installed backend is the selected one or that of one of the first thousand local commits. |
| Deploy.Run | installer/local_deploy.py:911-968 | Diagnosis and apply together: everywhere an apply can be cut, a calm run succeeds if and only if the host is not stuck, and a finished one is left alone. |
| UiPublication.ReleasesAreImmutable | installer/ui_publication.py:264-467 | Across any publications cut at any filesystem step the target never disappears once present and a release is never removed or overwritten. |
| UiPublication.ActiveTreesAreKept | installer/ui_publication.py:264-467 | Every tree that was ever active is later found whole: active, released, or at an exchange path. |
| UiPublication.EveryCutIsSound | installer/ui_publication.py:264-295 | From a sound directory every state a publication can be cut in is one that the next recovery accepts. |
| UiPublication.ReleasesKeepTheirContent | installer/ui_publication.py:253-261 | A release that holds the content it is named by holds it ever after. |
| UiPublication.SoundExactly | installer/ui_publication.py:253-295 | A publication directory is sound if and only if every release holds what its name says and has an index, and the target and every exchange path hold a tree with an index or a pointer to a release. |
| UiPublication.Publisher.Recover | installer/ui_publication.py:264-295 | Recovery never touches the target, archives every interrupted tree that has no release yet, drops pointers, and clears every other path except copies of intact releases; from a sound directory it succeeds in calm conditions. |
| UiPublication.Publisher.Publish | installer/ui_publication.py:302-467 | Success means the target points to an intact release of the source, that a restored release was there before or lay whole at an exchange path, and that the old target was missing, a tree with an index that no release contradicted, or a pointer to an intact release; cut anywhere, the active tree switched at most once and only from the old tree to the new one; in calm conditions it succeeds if and only if `PublishAdmits`. |
| UiPublication.Publisher.AfterAnyCuts | installer/ui_publication.py:302-467 | After any publications cut anywhere, one in calm conditions goes through. |
| UiRecords.DecodeReadsBack | installer/ui_publication.py:164-165 | The NUL and newline record text parses back to the same records for all paths without NUL. |
| UiRecords.EncodeIsInjective | installer/ui_publication.py:164-165 | Two record lists with the same text are the same list. |
| UiRecords.NulInPathsIsAmbiguous | installer/ui_publication.py:164-165 | That no path holds NUL, which file systems ensure, is needed: two concrete lists with the same text. |
| UiDigest.PreImageDeterminesTree | installer/ui_publication.py:47-165 | Two trees have the same hashed text if and only if they have the same root mode and the same kind, size, mode and content at every path. |
| UiDigest.ListingOrderIsIrrelevant | installer/ui_publication.py:63-156 | The order in which a directory lists its entries does not change the hashed text. |
| UiDigest.Walk | installer/ui_publication.py:63-143 | The nested walk with its shared counters succeeds if and only if everything below passes its checks and both totals stay within their limits, and then appends exactly the entries below. |
| UiDigest.WalkTree | installer/ui_publication.py:145-165 | Succeeds if and only if the tree is accepted, with a regular top-level index where one is required, and returns the text that determines it. |
| UiDigest.SafeModesExactly | installer/ui_publication.py:36-44 | A mode is accepted if and only if group and others may not write and others may read the file or pass through the directory. |
| UiDigest.AcceptedExactly | installer/ui_publication.py:47-165 | A tree is accepted if and only if it holds nothing but files and directories, the root and everything at any path has a safe mode and size, there are at most 10000 entries and 512 MiB in all, and a regular top-level index where one is asked for. |
| HostPublication.ValidatePlan | installer/host_publication.py:97-126 | Accepts exactly the plans whose rows name allow-listed files in list order, none twice, with well-formed digests and modes, and returns each row as it is written. |
| HostPublication.ValidPlanExactly | installer/host_publication.py:97-126 | The valid plans are those of the boot preflight script, of the API unit, and of both in this order, with their own modes. |
| HostPublication.BuildPlan | installer/local_deploy.py:391-438 | Succeeds if and only if every source and target is usable; builds nothing if and only if every file is in place; and what it builds is a valid plan. |
| HostPublication.BuiltPlansAreValid | installer/local_deploy.py:391-438 | Every non-empty plan the deployment builds is one the publisher accepts. |
| HostPublication.HostFiles.PublishOne | installer/host_publication.py:259-310 | Even with others writing at any moment, at most its own target is replaced, and only after the second reading found it at the digest the plan expected; while nobody ignores the lock that is also what stood there at the rename, success leaves the target desired, and in calm weather it succeeds if and only if the target is old or desired. |
| HostPublication.HostFiles.Preflight | installer/host_publication.py:313-326 | Writes nothing and succeeds only if every target is old or desired, in calm weather exactly then. |
| HostPublication.HostFiles.Publish | installer/host_publication.py:329-336 | A plan that does not fit changes no target; a cut leaves every target old or desired so that the same plan still fits; success leaves all desired; in calm weather it succeeds if and only if the plan fits. |
| HostPublication.PlanThenPublish | installer/host_publication.py:329-336 | A built plan, published any number of times with a cut anywhere and then once undisturbed, goes through if and only if both source files are regular with their modes and both targets can be replaced; then both targets hold their source with its mode, and no other path is touched. |
| HostPublication.SettledPlanIsEmpty | installer/local_deploy.py:391-417 | Once a built plan is settled, building again finds nothing to do. |
| WriterGuard.MutualExclusion | backend/fwrouter_api/adapters/xray_common.py:25-75 | In every interleaving of threads of any processes at most one thread is inside the guard. |
| WriterGuard.ReadersExcludeWriters | backend/fwrouter_api/adapters/xray_common.py:83-138 | No read lease is held while a writer is inside. |
| WriterGuard.NothingLeaks | backend/fwrouter_api/adapters/xray_common.py:34-75 | A thread outside every guard call, timed out or not, holds no count of the re-entrant lock and no open file. |
| WriterGuard.ReleasedOnlyAtOutermostExit | backend/fwrouter_api/adapters/xray_common.py:61-75 | An exclusive file lock ends only at its own thread's outermost exit, or with its process. |
| WriterGuard.FreeLockCanBeTaken | backend/fwrouter_api/adapters/xray_common.py:44-58 | While nobody is inside, leaving or reading, a polling thread can take the file lock at once. |
| WriterGuard.WriterGetsIn | backend/fwrouter_api/adapters/xray_common.py:25-60 | A concrete run that ends with a writer inside: the premises of the properties above are met. |
| WriterGuard.ReaderGetsIn | backend/fwrouter_api/adapters/xray_common.py:83-121 | A concrete run in which a reader of another process holds its lease while a writer polls. |
| WriterGuard.StepKeepsInv | backend/fwrouter_api/adapters/xray_common.py:25-138 | Every step of every thread keeps the invariant tying depths, counts, descriptors and lock modes together. |
| GuardProgress.NestedCallGetsIn | backend/fwrouter_api/adapters/xray_common.py:20-60 | The guard is re-entrant: in every run a guarded call of a thread that is already inside can take the thread lock at once, and gets in one deeper with the same files and descriptor and no other thread touched. |
| GuardProgress.OutermostCallGetsIn | backend/fwrouter_api/adapters/xray_common.py:29-44 | A call of a thread that is not inside gets past the thread lock if and only if no thread of its process is inside or past that lock on its way in or out. |
| GuardProgress.OnlyUntimedWaitsLast | backend/fwrouter_api/adapters/xray_common.py:25-75 | In every run a thread that is inside, leaving, or waiting with a timeout has a next step out, whatever all others do, that keeps its process and leases; so only an untimed wait can last. |
| GuardProgress.WaitsEndExactlyIfTimed | backend/fwrouter_api/adapters/xray_common.py:28-58 | A wait for either lock can be given up if and only if the call has a timeout. |
| GuardProgress.LeaseAskedExactly | backend/fwrouter_api/adapters/xray_common.py:93-105 | A lease can be asked for if and only if the thread is inside no writer call and the lock file is there. |
| GuardProgress.LeaseGrantedExactly | backend/fwrouter_api/adapters/xray_common.py:116-121 | It is granted if and only if no open file on the lock is locked exclusively. |
| GuardProgress.NestedRun | backend/fwrouter_api/adapters/xray_common.py:25-75 | A concrete run that enters twice and leaves twice, with the file locked from the first entry to the outermost exit and nothing left at the end. |
| Descriptors.Process.Acquire | installer/component_install_lock.py:297-310 | The lock takes the lowest free descriptor and the lease the next; both are exclusive on success, and a failure leaves nothing open. |
| Descriptors.Process.Release | installer/component_install_lock.py:313-317 | Closes the lock and the lease registered under it, and nothing else. |
| Descriptors.Process.ComponentLock | installer/local_deploy.py:497-531 | Wherever `acquire` opened them, success parks both locks outside 8 and 9 and keeps aside what stood there; a failure gives everything back if and only if it is that of `acquire`, or of the first duplication with nothing at 9, or of the second with nothing at 8. |
| Descriptors.Process.UnderComponentLock | installer/local_deploy.py:838-908 | Children inherit the lock at 9 and the lease at 8; at API start the lock is still held and no descriptor refers to the lease; at the end the same descriptors refer to the same files, all but 8 and 9 inherited as before, and nothing refers to either lock. |
| Descriptors.RunHandsOverTheLock | installer/component_install_lock.py:320-356 | The installer starts with the component lock at 9 if and only if it did not open as 8 on a host with a lease; otherwise 9 is the lease and the component lock is lost. |
| XrayConfig.ManagedRouting | backend/fwrouter_api/adapters/xray_real.py:470-626 | Under first-match routing a client's first steering directive decides between explicit direct and blackhole, else its first resolvable binding's egress, and only then the preserved rules, whatever rules were there before. |
| XrayRouting.DirectedClient | backend/fwrouter_api/adapters/xray_real.py:554-569 | A client connection goes where the user's first directive with mode direct, disabled or unsupported_selective sends it: out directly for direct, into the blackhole for the other two. |
| XrayRouting.BoundClient | backend/fwrouter_api/adapters/xray_real.py:470-552 | Without such a directive it goes, by the first binding whose server's last assignment has a tag, to that tag, and a SOCKS handoff to that assignment's port carries it. |
| XrayRouting.OtherConnection | backend/fwrouter_api/adapters/xray_real.py:505-611 | Every other connection but the API's goes by the first matching rule of the configuration's owner. |
| XrayRouting.ApiConnection | backend/fwrouter_api/adapters/xray_real.py:411-416 | The API inbound reaches the API outbound whatever is configured. |
| XrayRouting.OutboundsExactly | backend/fwrouter_api/adapters/xray_real.py:495-603 | The outbounds are exactly the four fixed ones, one handoff per server by its last assignment, and the owner's own. |
| XrayRouting.SectionsExactly | backend/fwrouter_api/adapters/xray_real.py:418-446 | The inbounds are the owner's and last the managed API inbound; api, policy and dns are completed over what they held, and every other key is kept. |
| XrayConfig.MaterializationIsIdempotent | backend/fwrouter_api/adapters/xray_real.py:520-626 | Materializing twice is materializing once if and only if every egress tag is a managed one. |
| XrayConfig.OutboundsArePreserved | backend/fwrouter_api/adapters/xray_real.py:495-503 | Unmanaged outbounds keep content and order if and only if every egress tag is a managed one. |
| XrayConfig.RulesArePreserved | backend/fwrouter_api/adapters/xray_real.py:505-518 | Unmanaged rules keep content and order, and nothing else survives among them. |
| XrayConfig.InboundsArePreserved | backend/fwrouter_api/adapters/xray_real.py:418-446 | Inbounds other than the managed API inbound keep content and order. |
| XrayConfig.DirectTagIsDirect | backend/fwrouter_api/adapters/xray_real.py:372-381 | Exactly one outbound carries the explicit-direct tag, and it is the direct one, whatever was configured before, if and only if no assignment in force takes that tag; likewise the fallback tag and the blackhole. |
| XrayConfig.BoundTagNamesItsEgress | backend/fwrouter_api/adapters/xray_real.py:448-493 | The tag a bound client is routed to is carried by the SOCKS handoff to its own server's port. |
| XrayClients.ListsAgree | backend/fwrouter_api/adapters/xray_real.py:1161-1189 | With a UUID for every desired client the two separately written merges give the same client list if and only if no kept client loses an alias to a repeated e-mail. |
| XrayClients.RepeatedEmailLosesAlias | backend/fwrouter_api/adapters/xray_real.py:1161-1189 | A concrete client list on which an alias is lost. |
| XrayClients.DistinctEmailsLoseNothing | backend/fwrouter_api/adapters/xray_real.py:998-1100 | With distinct case-folded e-mails among the kept clients no alias is lost. |
| XrayClients.StagedIsReconciledThenMaterialized | backend/fwrouter_api/adapters/xray_real.py:1142-1202 | With a UUID for every desired client the staged configuration is the one reconcile followed by materialize leaves, under the same exact condition. |
| XrayClients.ClientInboundIsFirst | backend/fwrouter_api/adapters/xray_real.py:261-278 | The inbound with the clients is the first VLESS inbound over WebSocket, and none if there is none. |
| XrayMerges.MergeAdmitsExactlyTheDesired | backend/fwrouter_api/adapters/xray_real.py:998-1100 | In a merge no client under a managed prefix is left whom nobody desires, none of a desired e-mail has another UUID than its last desired entry says, and every desired e-mail has a client. |
| XrayMerges.ReconciledIsMerged | backend/fwrouter_api/adapters/xray_real.py:1006-1100 | Reconciling is a merge: the surviving clients in order, changed in nothing but the alias, which the last survivor of an e-mail gets, then one new client for each e-mail nobody has, made from its last entry, in order of first mention; nothing else. |
| XrayMerges.StagedIsMerged | backend/fwrouter_api/adapters/xray_real.py:1161-1189 | Staging is the same merge with the alias for every survivor, and is refused if and only if a client would have to be made from an entry without a UUID. |
| XrayAdapter.MaterializeEgress | backend/fwrouter_api/adapters/xray_real.py:520-626 | The loops over outbounds, rules and assignments build the managed configuration that `XrayRouting` and `XrayConfig` are about. |
| XrayAdapter.BuildEgress | backend/fwrouter_api/adapters/xray_real.py:541-552 | The loop over assignments fills the two dictionaries so that each server has its last assignment in its first place, and the listed outbounds are the egress of the managed configuration. |
| XrayAdapter.BuildRules | backend/fwrouter_api/adapters/xray_real.py:470-493 | From the tags dictionary the loops build the directives' rules and then one rule for each binding that resolves, in order. |
| XrayAdapter.ReconcileClients | backend/fwrouter_api/adapters/xray_real.py:998-1100 | The in-place merge by e-mail leaves the reconciled list, which is a merge of the clients and the desired entries. |
| XrayAdapter.StageClients | backend/fwrouter_api/adapters/xray_real.py:1161-1189 | The staging loop gives the staged client list, a merge too, or fails exactly when a new client has no UUID. |
| XrayAdapter.BindMetadata | backend/fwrouter_api/adapters/xray_real.py:628-666 | Every client gets exactly the metadata of the last binding that names its id as UUID or client id, loses stale metadata where none does, and keeps everything else. |
| XrayAdapter.Adapter.Reconcile | backend/fwrouter_api/adapters/xray_real.py:998-1140 | The active configuration becomes the reconciled one if validation and reload succeed or nothing changes, and otherwise is what it was. |
| XrayAdapter.Adapter.Materialize | backend/fwrouter_api/adapters/xray_real.py:1319-1410 | The same for materialization, with and without a forced reload. |
| XrayAdapter.Adapter.TwoPaths | backend/fwrouter_api/adapters/xray_real.py:1142-1269 | On two adapters with the same active configuration, staging and applying on one and reconciling and materializing on the other, all validations and reloads succeeding, leave the same active configuration if and only if no alias is lost. |
| RateGate.AtMostLimitPerWindow | backend/fwrouter_api/adapters/stealthsurf.py:54-78 | Over any calls with nondecreasing times at most `limit` requests of a key are admitted in any half-open interval as long as the window. |
| RateGate.WindowHintIsTight | backend/fwrouter_api/adapters/stealthsurf.py:70-76 | Any retry before the hint of a window rejection fails the window check, and a retry at that instant passes it. |
| RateGate.NothingDuringABlock | backend/fwrouter_api/adapters/stealthsurf.py:48-69 | While a block holds nothing is admitted, whatever calls come between, and later calls never shorten it. |
| RateGate.QuotaBoundsAdmissions | backend/fwrouter_api/adapters/stealthsurf.py:55-66 | Until its reset an observed quota bounds the admissions, and every admission asked for spends one unit. |
| RateGate.RefusalSpendsQuotaExactly | backend/fwrouter_api/adapters/stealthsurf.py:55-69 | A refused admission lowers the quota, by one, if and only if a quota is in force and has a unit left. |
| RateGate.RejectionCanSpendQuota | backend/fwrouter_api/adapters/stealthsurf.py:55-69 | A concrete run in which a refused admission spends the only token. |
| RateGate.AdmittedExactly | backend/fwrouter_api/adapters/stealthsurf.py:54-78 | After any calls in order a call at `now` is admitted if and only if no observed quota with `now` before its reset is used up by the calls since, no block reaches past `now`, and fewer than `limit` of the times admitted so far are in (now - window, now]; a refusal names the first of the three that fails. |
| RateGate.Gate.AdmitKey | backend/fwrouter_api/adapters/stealthsurf.py:54-78 | The method on the gate's dictionaries answers and leaves exactly what the proved admission function says, for its own key only; at or after its reset a quota refuses nothing and is gone after the call. |
| RateGate.Gate.BlockKey | backend/fwrouter_api/adapters/stealthsurf.py:48-52 | Blocks its own key only, and as the proved function says. |
| RateGate.Gate.ObserveKey | backend/fwrouter_api/adapters/stealthsurf.py:80-84 | Sets the quota of its own key only. |
| SchemaSql.NormalizeSql | backend/fwrouter_api/db/schema_state.py:331-378 | The index-driven scanner computes the token-wise normal form, for every text, unclosed quotes included. |
| SchemaSql.NormalIsIdempotent | backend/fwrouter_api/db/schema_state.py:331-378 | Normalizing is idempotent on every text without quoted identifiers outside string literals. |
| SchemaSql.NormalExactly | backend/fwrouter_api/db/schema_state.py:331-378 | Normalizing leaves a text alone if and only if it is trimmed, has single spaces and lower case outside string literals and no quoted identifier. |
| SchemaSql.IdempotentExactly | backend/fwrouter_api/db/schema_state.py:331-378 | On every text whose quoted identifiers outside string literals are words, that is neither empty nor blank at an end and opening no quote of their own, normalizing twice is normalizing once if and only if no white space in them is other than single blanks. |
| SchemaSql.NormalFormReached | backend/fwrouter_api/db/schema_state.py:331-378 | On any text a second round changes nothing if and only if the first reached normal form, which it does on every text without quoted identifiers. |
| SchemaSql.QuotedIdentifiersAreNot | backend/fwrouter_api/db/schema_state.py:360-374 | With a quoted identifier it is not: a concrete text. |
| SqlPieces.NormalShowsThePieces | backend/fwrouter_api/db/schema_state.py:331-378 | The normal form of words, quoted identifiers and string literals, written with any white space between them and any quotes around identifiers, is the words and identifiers in lower case and the literals as written, with single spaces between. |
| SchemaSql.TableDeclarationContract | backend/fwrouter_api/db/schema_state.py:414-451 | The scanner returns, for every text, the sorted normal forms of the top-level parts it finds, or the marker for missing or malformed text. |
| SchemaSql.ContractIsSortedForms | backend/fwrouter_api/db/schema_state.py:414-451 | For any list of declarations with balanced parentheses and quotes and no top-level comma, joined into a statement, the contract is exactly the sorted list of their non-empty normal forms. |
| SchemaSql.ContractIgnoresOrder | backend/fwrouter_api/db/schema_state.py:414-451 | So permuting the declarations does not change the contract. |
| SqlPieces.DeclarationsWithQuotesAndCalls | backend/fwrouter_api/db/schema_state.py:414-451 | Commas and parentheses inside a literal or quoted identifier do not end a declaration, nor do commas inside parentheses. |
| ProviderTables.Database.PutBinding | backend/fwrouter_api/db/provider_managed.py:105-149 | Accepted if and only if the fields are complete and an expected revision of an existing binding is current; then the revision is one higher and what was observed and applied is kept; nothing else changes, and nothing at all on refusal. |
| ProviderTables.Database.PutMembers | backend/fwrouter_api/db/provider_managed.py:160-195 | The loop saves item by item up to a refused one: the new table is the fold over the items, including the partial one left by a refusal. |
| ProviderTables.Database.Discover | backend/fwrouter_api/db/provider_managed.py:198-218 | Clears the scope's advertised flags, then saves the members under that scope; nothing happens at a stale revision. |
| ProviderTables.Database.Configure | backend/fwrouter_api/db/provider_managed.py:247-291 | Accepted if and only if the binding is there at the expected revision and the time is new; then exactly the observed fields that are given move, no member row changes, and a row is added, unadvertised, exactly for a fully named member that is not there. |
| ProviderTables.Database.Prefer | backend/fwrouter_api/db/provider_managed.py:221-244 | Accepted if and only if the revision is current and, where anything is given, the row is there and a priority is in -1..5; changes exactly the preferences given, of that row alone. |
| ProviderTables.Database.Serve | backend/fwrouter_api/db/provider_managed.py:312-325 | Accepted if and only if the revision is current; records what was applied on that binding alone. |
| ProviderRows.SavedExactly | backend/fwrouter_api/db/provider_managed.py:160-195 | A list of members is saved if and only if there is a binding, or no item, and each item has an id, a location and a non-empty protocol, no negative or unusable slots and no null status. |
| ProviderRows.RowsSayTheLastItem | backend/fwrouter_api/db/provider_managed.py:160-195 | Of a saved list each row named holds what its last item says, defaults included, is advertised, and keeps its first time and preferences; rows not named are as they were. |
| ProviderRows.OnlyAllowedIsStored | backend/fwrouter_api/db/provider_managed.py:247-309 | Whatever the calls are given, over every run the evidence holds no key but the five allowed ones. |
| ProviderTables.Database.Session | backend/fwrouter_api/db/connection.py:218-228 | A session of calls is committed as a whole, or leaves the tables as they were when any call raises. |
| ProviderHistory.SessionsAreSerial | backend/fwrouter_api/db/connection.py:218-228 | After any sessions the tables are what the committed calls alone make of them, one after the other. |
| ProviderHistory.NoRowIsLost | backend/fwrouter_api/db/provider_managed.py:160-244 | Over every run a row, once there, stays, with the time of the first call that mentioned it and the preferences last set for it. |
| ProviderHistory.OnlyPreferencesChangeRows | backend/fwrouter_api/db/provider_managed.py:221-244 | Without preference calls for a row none of that changes. |
| ProviderHistory.AdvertisedIsTheLastDiscovery | backend/fwrouter_api/db/provider_managed.py:198-218 | Whatever came before and since, a scope advertises exactly the members of its last discovery. |
| ProviderHistory.NewestAreNewest | backend/fwrouter_api/db/provider_managed.py:348-356 | What one trim keeps are the n newest times: n of them, or all, and none older than a dropped one. |
| ProviderHistory.EvidenceIsTheNewestEver | backend/fwrouter_api/db/provider_managed.py:247-356 | Trimming after every insertion leaves on every channel exactly the 32 newest of all evidence ever recorded there, each as first recorded. |
| ProviderHistory.SameRevisionMeansUntouched | backend/fwrouter_api/db/provider_managed.py:339-345 | Two calls expecting the same revision are both done only if nobody saved the binding in between; the one exception is a first call that creates the binding, and then the saves in between are exactly one less than the revision expected. |
| ConfigLines.Lines.Iterate | backend/fwrouter_api/adapters/mihomo.py:62-85 | For every text the iterator, lazy or not, still has exactly the lines of str.splitlines to give. |
| ConfigLines.Lines.Configured | backend/fwrouter_api/adapters/mihomo.py:88-102 | The configured iterator has all lines to give if the marker occurs anywhere, and none otherwise. |
| ConfigLines.Lines.Next | backend/fwrouter_api/adapters/mihomo.py:76-85 | Each step gives the first of the remaining lines and keeps the rest, also when found by searching for a line feed only. |
| ConfigLines.Collect | backend/fwrouter_api/adapters/mihomo.py:62-85 | Walking through any text line by line collects the lines of str.splitlines. |
| ConfigLines.SplitReadsBack | backend/fwrouter_api/adapters/mihomo.py:62-85 | Lines written out with any mixture of line ends are split into the same lines. |
| ConfigScan.TopLevelScalar | backend/fwrouter_api/adapters/mihomo.py:491-500 | Through the lazy lines the scanner returns what it returns over all lines, for every key and text. |
| ConfigScan.ScalarIsTheFirstHead | backend/fwrouter_api/adapters/mihomo.py:491-500 | And that is the stripped rest of the first top-level line with the key, and nothing if and only if there is none. |
| ConfigScan.ScanListenerPorts | backend/fwrouter_api/adapters/mihomo.py:502-567 | The port scanner through the lazy lines, stopping early, equals the scan over all lines. |
| ConfigScan.ScanTransparentListeners | backend/fwrouter_api/adapters/mihomo.py:569-622 | So does the scanner of transparent listeners. |
| ConfigScan.ScanTunEnabled | backend/fwrouter_api/adapters/mihomo.py:624-641 | And the scanner of the TUN switch. |
| ConfigSections.TunIsTheSwitch | backend/fwrouter_api/adapters/mihomo.py:624-641 | It reports the first switch of the section, no switch as off, whatever surrounds the section. |
| ConfigSections.PortsAreTheFirstOfEachKind | backend/fwrouter_api/adapters/mihomo.py:502-567 | Of listeners listed at the left margin each kind gets the first port given for it, whatever surrounds the section. |
| ConfigSections.TransparentAreTheLastNamed | backend/fwrouter_api/adapters/mihomo.py:569-622 | Each transparent listener is reported as the last entry with its name and type, with all its fields. |
| ConfigRoundTrip.WrittenPortsAreRead | backend/fwrouter_api/adapters/mihomo.py:502-567 | Of listeners written out in a configuration, whatever surrounds them, the scan reports for each kind the port number of the first one, and none if there is none. |
| ConfigRoundTrip.WrittenTransparentAreRead | backend/fwrouter_api/adapters/mihomo.py:569-622 | And of each transparent listener the last one written with its name and type, with its four fields. |
| ConfigRoundTrip.WrittenSwitchIsRead | backend/fwrouter_api/adapters/mihomo.py:624-641 | A written TUN switch is on if and only if its value is 1, true, yes or on. |
| ConfigRoundTrip.WrittenScalarIsRead | backend/fwrouter_api/adapters/mihomo.py:491-500 | A written top-level scalar is read back, unless an earlier top-level line starts with its key. |
| Text.FoldedAlike | backend/fwrouter_api/adapters/xray_real.py:1004-1010 | Spellings of a name that differ in case and surrounding white space are folded to the same text. |

## Left out

General assumptions: digests are injective on the values compared; files are trusted, so ownership,
mode and symlink checks of trusted trees, stat-identity rechecks and fsync are not modelled; durable
writes are atomic; subprocesses, systemctl, docker and HTTP are calls that may fail. JSON, YAML,
SQLite and tar are values.

- Rollout: `created_at`, the JSON size bound of the checkpoint, argument parsing and the fixed image name are not part of the model.
- Lifecycle.Host.ReadRuntime: container, unit and Compose file facts are one observation, so a change between their separate readings is not modelled; the final rereading of the unit in a release with an inactive unit is folded into it.
- Lifecycle.Host.RunChild: the rebuild child process is any run of the checkpoint updates it may make; its database work is not modelled.
- Lifecycle.Host.ReachChild: the admission lease and the interpreter check that precede the child are calls that may fail.
- Lifecycle.Host.ReadCheckpoint: only checkpoints that commands wrote are read; refusals of arbitrary damaged files are described by `Checkpoints.Readable` but no parser is modelled.
- Deploy.Apply: commands of other processes run between its readings, before the lock and before each of its writes, but not between the single files of one installation. The wait for API health is one final poll. The legacy UI permission fix and `_source_commit` are left out.
- Deploy.InstallBackend: `Installable` assumes that every step of the installation fits the tree and leaves one that can be listed; file modes set by `ensure_executable` are left out.
- Deploy.FindOldSource: git is the list of the backends of local commits.
- UiPublication.Publisher.Publish: staging directories, signals, unused names (taken as fresh) and edits of the initial tree between its check and the exchange are not modelled.
- UiDigest.Walk: walks in listing order instead of sorted order, which `UiDigest.ListingOrderIsIrrelevant` justifies; copying into a staging tree and concurrent changes of the tree are left out.
- HostPublication.HostFiles.PublishOne: promises nothing of what stood at the target at the rename when someone ignores the lock and writes after the second reading; such contents are lost. Temporary files are not modelled, and contents are known by digest.
- WriterGuard.MutualExclusion: the lock file keeps its inode, and no asynchronous exception arrives between taking the file lock and recording it.
- Descriptors.Process.ComponentLock: a failing `set_inheritable` is not modelled.
- Descriptors.Runner.Run: only the run in which every call succeeds is modelled.
- XrayAdapter.BindMetadata: metadata is an opaque value per binding.
- XrayAdapter.MaterializeEgress: assignments are a parameter instead of the result of `build_xray_handoff_assignments`; entries that are no JSON objects are left out; lower-casing is ASCII; blocks of unrelated settings are opaque.
- XrayAdapter.Adapter.ApplyStaged: a failing reload leaves the staged configuration active, as in the code.
- RateGate.Gate.AdmitKey: times are reals, the three dictionaries are one map, and `limit` is positive, as every configured bucket is; response headers, the mutex and `_BoundedCache` are left out.
- SchemaSql.IdempotentExactly: identifiers that are empty, blank at an end or hold an opening quote are not characterized; `SchemaSql.QuotedIdentifiersAreNot` is one on which a second round changes the text.
- SchemaSql.NormalizeSql: lower case is ASCII. `_check_expressions` and index and foreign key comparison are left out: the first is the same quote and depth scan behind a regular expression.
- ProviderTables.Database.PutMembers: identifiers are texts, and SQL statements are updates of maps; `available_configs_json`, `allow_automatic_member_switch`, credentials and location labels are left out.
- ProviderHistory.AdvertisedIsTheLastDiscovery: a `save_members` call outside a discovery adds to the advertised rows of the scopes it names, so it is excluded for this scope after its last discovery.
- ConfigScan.ScanListenerPorts: digits and lower case are ASCII, so a port written in other digits, on which the source raises, is not modelled.
- ConfigSections.PortsAreTheFirstOfEachKind: indented list items are not separated by this scanner in the source, and are not described here.
- Subscription and rules fetching, the protocol adapters, the HTTP API, settings and the job manager are left out: mostly I/O, or state kept elsewhere.
