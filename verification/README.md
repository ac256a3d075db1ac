# Release and artifact lifecycle of the Puppet module registry

A Dafny model of how the registry publishes, replaces, deletes, verifies and
cleans up module releases and their archives, of the version order it sorts
by, and of the locks, leases and small data structures this rests on, with
proofs of what they guarantee. `dafny verify dfyconfig.toml` checks everything.

## What is modelled

- **Lifecycle** (`Lifecycle*.dfy`). Requests and background jobs run as threads
  over shared tables, an object store that only creates or deletes whole
  objects, one lock per module and one lease per upstream cache entry. A step
  is one call to the database or the object store, or one lock operation. Any
  call may fail, having taken effect or not; any thread may crash; listings may
  be stale. `Lifecycle` has the jobs, `LifecycleInvariant` what holds in every
  state and what a thread knows at each point, `LifecycleFrames` what a step
  may disturb, `LifecycleSafety` each call of each job on its own,
  `LifecycleSteps` the induction step, `LifecycleEffects` what one step may
  change, `LifecycleTheorems` the results over whole runs, `LifecycleChanges`
  every change of a row, a queue entry, a tombstone, a module or an object with
  its only causes, column by column, and `LifecycleHistory` the same on any run,
  with what a call that worked has done, what a thread goes on to do and what
  stays deleted. `LifecycleProgress` has the absence of deadlock and
  `LifecycleCompletion` that a publish can succeed.
  `LateEffects` adds calls to the object store that take effect long after
  their failure was reported, or after a crash of their caller.
- **Tables** (`Store`, `SqliteStore`). Every transaction is a function on table
  values, used by the lifecycle, and a method that updates the tables in place.
- **The deletion worker and reconciliation on their own**
  (`ArtifactDeletions`, `Reconcile`), as loops over the same tables.
  `WorkerRuns` shows that the worker's loop and the lifecycle's worker thread
  are the same, `DeletionFairness` when no queued deletion starves.
- **Object names** (`ArtifactPaths`, `ObjectNames`, `StoreKeys`). Names as
  strings: what the publisher builds, what repair reads back, when artifacts and
  cache entries keep apart, and the cleaned keys that the S3 store keeps objects
  under. The lifecycle takes names as they are described in the first two.
- **Versions** (`Version`, `VersionGrammar`, `VersionOrder`, `LatestVersion`). The
  parser and comparison the registry uses; the grammar and precedence of Semantic
  Versioning 2.0.0 (sections 9 to 11) with the `v1` and `v1.2` shorthands, written
  out on their own and shown to be what the parser accepts and the comparison
  decides; the text key that SQL sorts by, and the stored latest version.
- **Mutual exclusion** (`LockTable`, `LeaseTable`, `ArtifactLeases`,
  `BackgroundLeases`). The lock table and the two ways of using timed leases,
  as step systems with any number of threads. The lifecycle treats locks and
  leases as exclusive; these modules show that they are.
- **Fast structures** (`ExpiryHeap`, `ExpirySet`, `RateLimiter`,
  `ResponseCache`, `AccessTokens`, `Authorizer`), each against a simple form of
  itself.
- **The rest** (`UploadReader`, `Refresh`, `SqliteTime`, `ModuleNames`, `SetSizes`,
  `Text`).

## Where a promise does not hold as it stands

Each of these comes with the inputs or the run on which it fails, and with the
condition under which it holds.

- `LateEffects`: a delete of the worker, of repair or of a failed publish's
  compensation that lands late, after its failure was reported or its caller
  crashed, can remove an artifact published in the meantime: such a run exists
  for every release. No release dangles as long as no upload succeeds while a
  delete of the same object is still outstanding, and the first upload that does
  not wait can always succeed and be followed by the loss
  (`LateNoDanglingRelease`, `UploadAtRiskCanDangle`, `LateDeleteDangles`).
- `DeletionFairness`: a deletion that fails is put off, so that the others are
  reached, but one context serves a whole run: once it has expired nothing more
  is done or put off. All that runs finish or put off while an entry waits is no
  more than the entries ahead of it (`NoStarvation`). A run that moves none leaves
  the queue as it was (`IdleExactly`), and as long as putting off works while the
  context lasts, that is a run whose first entry takes all its time
  (`FirstEntryDecides`). So the number of runs that can pass an entry by is bounded
  exactly when each run is sure to get something done (`ReachedExactly`); otherwise
  one entry that hangs keeps all behind it waiting for ever, whatever the limit and
  the queue (`HangingEntryStarves`, `OneHangingEntryIsEnough`).
- `VersionOrder`: the sort key pads a number's length to ten digits. Keys sort
  as versions do, and SQL pages agree with sorting in memory, exactly as long
  as numbers have fewer than 10^10 digits (`SortKeyIsExact`,
  `PagesAgreeExactly`, `LongNumbersBreakTheOrder`).
- `ArtifactLeases`: exclusion depends on bounded delays. It holds on every run
  exactly when a third of the lease, the renewal timeout, the slack and twice
  the latency are less than the lease; with the registry's 75 seconds the delays
  may add up to almost 45 seconds (`LiveWorkersAreExclusive`,
  `UnsoundTimingBreaksExclusion`, `RegistryTimingIsSound`).
- `BackgroundLeases`: likewise, two replicas can do the same work exactly when a
  discipline's bound fails. For the refresh the bound on a reply is five seconds
  if it is to hold at every interval (`OneReplicaWorks`,
  `UnsoundDisciplineBreaksExclusion`, `RegistryDisciplines`).
- `ArtifactPaths`: repair judges published artifacts exactly when the configured
  artifact prefix is one that `path.Join` leaves as it is; with any other prefix,
  the empty one included, it finds no module in their names
  (`RepairLocksThePublishersModule`).
- `Reconcile`: what repair judges need not be an artifact. Any object two or more levels
  below the prefix that no row names and that is older than the run goes
  (`JudgedNames`, `RepairRemovesOrphans`), such as a probe that a readiness check
  could not remove (`LeftProbesGo`); the module it locks for it need not exist.
- `StoreKeys`: the S3 store keeps objects under cleaned keys, without a leading
  slash, and lists those, while rows keep the names as built. Repair then takes the
  objects of live releases for orphans exactly when the prefix has a leading slash
  and is otherwise one it works with, such as `/modules`; pruning does exactly when
  it has one and its first segment starts like the cache directory
  (`RepairTakesLiveExactly`, `PruningTakesLiveExactly`, `RootedPrefixLosesReleases`).
- `ObjectNames`: repair spares all cache entries, and artifacts stay out of what
  pruning lists (in a store that lists names as they are), exactly when the
  configured prefix does not lead into the cache directory; a cached file's name
  lies there exactly when its cleaned path does not climb out
  (`RepairSparesTheCache`, `ArtifactsStayOutOfCache`, `CacheNameStaysInCache`).
- `UploadReader`: a consumer that reads on after an "exceeds" error can be told
  the end of the stream without having all of it, because the probe for extra
  data consumes a byte. The end means a complete source exactly when no earlier
  read reported excess (`EndMeansComplete`, `EndAfterExcessIsIncomplete`).

## Model

| member | source | states |
|---|---|---|
| LifecycleTheorems.ReachableInv | internal/service/module_service.go:207-312 | every state of every run satisfies the lifecycle invariant, under any interleaving, crash, failed call or lost commit reply; calls that land late are in LateEffects |
| LifecycleTheorems.NoDanglingRelease | internal/service/module_service.go:207-312 | every local release row of every reachable state names a stored object whose hash and length are the recorded ones; with calls that land late: LateEffects.LateNoDanglingRelease |
| LateEffects.PatientRunsKeepInv | internal/service/module_service.go:600-620 | with deletes and uploads that land at any time after their failure or a crash, the invariant holds on every run on which no upload succeeds while a delete of the same object is outstanding |
| LateEffects.LateNoDanglingRelease | internal/service/module_service.go:248-312 | on such a run every local release keeps an object with its hash and length |
| LateEffects.UploadAtRiskCanDangle | internal/service/module_service.go:248-258 | the first upload while a delete of its object is outstanding, on any run, can succeed and be followed by a release without bytes: the condition is exact |
| LateEffects.LateDeleteDangles | internal/service/reconcile.go:106-131 | for every publication there is a run, from the empty registry, on which it ends up without bytes |
| LifecycleTheorems.RemovedArtifactsAreDead | internal/service/reconcile.go:106-131 | no step removes an artifact that a row references or that another thread is about to commit |
| LifecycleTheorems.PruneSparesReferenced | internal/service/upstream_cache.go:41-76 | pruning only deletes a cache entry that no row references at that moment, under its lease or, without an upstream to share it with, without one |
| LifecycleTheorems.OutboxExclusive | internal/store/sqlite.go:1294-1307 | no path is both queued for deletion and referenced, in any reachable state |
| LifecycleTheorems.OutboxConservation | internal/store/sqlite.go:1410-1425 | at rest, if nothing failed, each stored artifact is either referenced or queued, and not both |
| LifecycleTheorems.DrainedQueueLeavesReferencedArtifacts | internal/service/module_service.go:557-598 | at rest with an empty queue, if nothing failed, the stored artifacts are exactly the referenced ones |
| LifecycleTheorems.WorkerTallyBalances | internal/service/module_service.go:569-598 | attempted is deleted plus canceled plus failed whenever a worker ends, however stale its listing was |
| LifecycleTheorems.LocalReleaseKeepsItsBytes | internal/service/module_service.go:217-243 | while a local release exists and no publish with replace commits over it, its checksum is the same on the whole run |
| LifecycleTheorems.LocalNeverTurnsUpstream | internal/service/module_service.go:874-914 | a local row never becomes an upstream row without being deleted first |
| LifecycleTheorems.PublishedIsTrue | internal/service/module_service.go:280-312 | a publish about to report success holds the lock over a row with its checksum and an object with exactly its bytes |
| LifecycleTheorems.DeletedIsTrue | internal/service/module_service.go:458-501 | a deletion about to report success has left no such release |
| LifecycleTheorems.RepublishIsIdempotent | internal/service/module_service.go:217-235 | publishing registered bytes again, also after a commit that landed but reported an error, changes nothing on the whole rest of the run and can only report success, unless one of its own calls fails |
| LifecycleTheorems.RepublishCanGoOn | internal/service/module_service.go:314-331 | the registered object is always there to verify, so such a publish is never stuck |
| LifecycleTheorems.HydrationWritesOverItsSnapshot | internal/service/module_service.go:874-914 | a hydration writes only over the very row it took its snapshot of, an upstream row without a location, and writes what the upstream says of location, checksums and size where it says anything, the rest staying as it was |
| LifecycleTheorems.ChecksumDescribesItsObject | internal/service/module_service.go:1111-1161 | a checksum commit writes only over the very row that was hashed; the object at the recorded path has the recorded checksum and size, and has what an upstream row had recorded of them before |
| LifecycleTheorems.EnsuredIsIntact | internal/proxy/forge_proxy.go:218-272 | an archive about to be reported ensured is in the cache, under its lease, with the checksum and size that were asked for |
| LifecycleHistory.ArchiveIsRecordedOrRefused | internal/service/module_service.go:1111-1132 | a hashed archive goes on to be recorded exactly when it has what an upstream row says of checksum and size, and is refused otherwise; one that is not there is looked for once more |
| LifecycleHistory.ChecksumsAreRecordedExactly | internal/service/module_service.go:1134-1159 | under the lock, checksums are written exactly when the row is still the one that was hashed for |
| LifecycleHistory.HydrationsAreWrittenExactly | internal/service/module_service.go:874-908 | under the lock, a hydration is written exactly when the row is still the one that was fetched for and has no location |
| LifecycleHistory.ChecksumsAreLoaded | internal/service/module_service.go:1063-1109 | checksums are left alone exactly when all three are recorded and an upstream archive is cached; otherwise which archive is hashed |
| LifecycleHistory.CachedArchivesAreVerified | internal/proxy/forge_proxy.go:238-251 | a cached archive is taken as it is exactly when it has the checksum and size asked for; one that has not is deleted, and one that is not there is fetched |
| LifecycleHistory.FetchedArchivesAreVerified | internal/proxy/forge_proxy.go:252-266 | a fetched archive is ensured exactly when it has the checksum and size asked for, and is deleted otherwise |
| LifecycleHistory.RowsHaveCauses | internal/store/sqlite.go:1213-1334 | on any run a row that changes was published, indexed, restored, hydrated, given its checksums or deleted, and for each of these what every column then holds |
| LifecycleHistory.QueueHasCauses | internal/store/sqlite.go:1294-1307 | an artifact enters the queue from its row and whenever its row lets go of it, and leaves it only for a row or when a worker is through with it |
| LifecycleHistory.ModulesHaveCauses | internal/store/sqlite.go:1376-1386 | a module comes without versions, goes only without versions, by a job of its own, and goes when its last version does |
| LifecycleHistory.ObjectsHaveCauses | internal/service/module_service.go:246-261 | the content of an object never changes; objects come by a publish's upload or a download and go only in the places that delete |
| LifecycleHistory.DeletionBuriesUpstream | internal/store/sqlite.go:1433-1442 | deleting an upstream release adds its tombstone and no other, deleting a local one leaves the tombstones as they are |
| LifecycleHistory.DeletedUpstreamStaysAway | internal/service/module_service.go:1397-1473 | until retention purges that tombstone or the module is deleted, it stays and no indexing adds the release again |
| LifecycleHistory.RetentionOnlyPurges | internal/service/module_service.go:1246-1252 | retention removes the tombstones it names and changes nothing else |
| LifecycleHistory.FailedPublishLeavesNothing | internal/service/module_service.go:341-350 | a publish that failed without effect and whose own calls work from there on leaves no object behind, nor its module if there is no release in it, whatever others do |
| LifecycleHistory.FailedRegistrationGivesUp | internal/service/module_service.go:263-306 | a failed upsert of the module, and a commit that fails without effect, lead there |
| LifecycleHistory.ConflictIsRefused | internal/service/module_service.go:216-244 | a publish goes on to verify exactly when its bytes are registered, and is refused exactly when other content is and it was not asked to replace it |
| LifecycleHistory.OnlyIntactObjectsPass | internal/service/module_service.go:314-331 | from any state, reachable or not, a publish gets past verifying an object only if it has exactly its bytes |
| LifecycleHistory.UploadsAreVerified | internal/service/module_service.go:250-261 | a publish uploads its archive if there is no object, and compares an object that is there before it registers it |
| LifecycleHistory.PruneRemovesUnreferenced | internal/service/upstream_cache.go:41-76 | of what it looks at, pruning removes exactly what no row references |
| LifecycleHistory.GuardRefusesExactlyTheLatest | internal/service/module_service.go:503-525 | a guarded deletion is refused for the version that is stored as the latest and for no other, unless the release is in use |
| LifecycleHistory.CallsThatWorkTakeEffect | internal/service/module_service.go:207-312 | after a call that worked, what was uploaded is there, what was deleted is gone, and what was recorded is recorded |
| LifecycleTheorems.IndexingOnlyAdds | internal/service/module_service.go:1397-1473 | indexing adds only absent, untombstoned versions of its module and leaves all prior rows, queue, tombstones and objects unchanged |
| LifecycleTheorems.GuardedDeletionKeepsLatest | internal/service/module_service.go:503-525 | a guarded deletion removes one row, never empties the module and keeps the precedence of its latest version |
| LifecycleTheorems.LatestVersionIsGreatest | internal/store/mutation_audit.go:23-35 | in every reachable state a module's latest version is one of its versions and none is greater |
| LifecycleCompletion.PublishCompletes | internal/service/module_service.go:152-312 | from every reachable state with the module's lock free, a publish that is not refused can run to success without any failing step, and the release then has its bytes |
| LifecycleProgress.NoDeadlock | internal/store/sqlite.go:358-385 | in every reachable state where some thread has not ended, some thread has a step that is not a failure |
| LifecycleSteps.StepKeepsInv | internal/service/module_service.go:207-312 | the lifecycle invariant is inductive over every kind of step |
| LifecycleSafety.JobSafe | internal/service/module_service.go:600-620 | a call disturbs only the module its thread has locked and the cache entry it has leased, and keeps tables and objects sound |
| LifecycleSafety.JobInformed | internal/service/module_service.go:280-312 | after each call a thread still knows what its next call relies on |
| LifecycleSafety.JobAccounts | internal/store/sqlite.go:1345-1356 | a call that does not fail leaves no artifact of its module unreferenced, unqueued and not in flight |
| Store.CreateReleaseConsistent | internal/store/sqlite.go:1213-1314 | creating a release keeps rows well formed, latest versions right, and queue and references disjoint |
| Store.DeleteReleaseConsistent | internal/store/sqlite.go:1388-1480 | deleting a release keeps the tables consistent, given a recomputed latest version |
| Store.DeleteModuleConsistent | internal/store/sqlite.go:1336-1374 | deleting a module keeps the tables consistent, each of its artifacts ending up queued |
| Store.DeleteModuleIfEmptyConsistent | internal/store/sqlite.go:1376-1386 | removing an empty module keeps the tables consistent |
| Store.UpdateChecksumsConsistent | internal/store/sqlite.go:1316-1334 | recording checksums keeps the tables consistent |
| Store.AllowedDeletionKeepsPrecedence | internal/service/module_service.go:503-525 | deleting a version other than the stored latest keeps the module and the latest precedence |
| SqliteStore.SqliteStore.UpsertModule | internal/store/sqlite.go:1192-1203 | in place, the module upsert, or nothing when rolled back |
| SqliteStore.SqliteStore.CreateRelease | internal/store/sqlite.go:1213-1314 | in place, the transaction of the lifecycle; exactly that row is written and keeps the id it had; a conflict or an unknown module changes nothing, a lost reply changes all |
| SqliteStore.SqliteStore.DeleteRelease | internal/store/sqlite.go:1388-1495 | in place, the transaction of the lifecycle with a latest version that is greatest among what remains; exactly that row goes, and an upstream row leaves its tombstone |
| SqliteStore.SqliteStore.DeleteModule | internal/store/sqlite.go:1336-1374 | in place, the transaction of the lifecycle |
| SqliteStore.SqliteStore.DeleteModuleIfEmpty | internal/store/sqlite.go:1376-1386 | in place, removes the module exactly when it has no version |
| SqliteStore.SqliteStore.UpdateReleaseChecksums | internal/store/sqlite.go:1316-1334 | in place, writes the four checksum columns of one row |
| SqliteStore.SqliteStore.CompleteArtifactDeletion | internal/store/sqlite_artifact_deletions.go:67-72 | in place, takes one path off the queue |
| SqliteStore.SqliteStore.IsArtifactReferenced | internal/store/sqlite_artifact_deletions.go:38-46 | true exactly when some row names the path |
| ArtifactDeletions.RunIsSafe | internal/service/module_service.go:557-620 | whatever fails, a worker's run changes no row, removes no referenced object and counts every entry once |
| ArtifactDeletions.LeavesQueueLast | internal/service/module_service.go:600-620 | an entry leaves the queue only once its object is gone or referenced |
| ArtifactDeletions.RunWithoutFaults | internal/service/module_service.go:557-620 | without failures a run removes exactly the listed entries, and their objects unless referenced |
| ArtifactDeletions.DrainingLeavesReferencedObjects | internal/service/module_service.go:557-598 | a large enough run without failures empties a queue that is due and leaves exactly the referenced artifacts |
| ArtifactDeletions.ArtifactService.ProcessArtifactDeletions | internal/service/module_service.go:557-598 | the worker lists what is due in the queue's order, its loop does what the specification of a run says, failed entries are put off a minute, counters add up, pending is the queue's size, and an error is returned exactly when some call failed |
| ArtifactDeletions.ArtifactService.ListArtifactDeletions | internal/store/sqlite_artifact_deletions.go:9-36 | the first due entries by next attempt, creation and name, as many as the limit allows; no other list is that |
| ArtifactDeletions.ListingIsDetermined | internal/store/sqlite_artifact_deletions.go:11-16 | the order and the limit leave exactly one listing |
| ArtifactDeletions.ArtifactService.DeferArtifactDeletion | internal/store/sqlite_artifact_deletions.go:56-65 | in place, changes only the time of an entry that is queued |
| DeletionFairness.NoStarvation | internal/service/module_service.go:573-590 | whatever fails and wherever contexts expire, the entries that runs finish or put off while a due entry is not attempted in a live context are no more than those once ahead of it and those that came ahead since |
| DeletionFairness.ThoroughRunsServe | internal/service/module_service.go:580-584 | if contexts last and all failed entries are put off, the runs that pass an entry by, times the limit, are no more than that |
| DeletionFairness.IdleExactly | internal/service/module_service.go:573-590 | a run leaves the queue and its times unchanged exactly when it finishes and puts off nothing |
| DeletionFairness.FirstEntryDecides | internal/app/app.go:551-569 | when putting off fails only for lack of time, a run moves nothing exactly when its context expires on its first entry, unfinished |
| DeletionFairness.ReachedExactly | internal/app/app.go:551-569 | for every queue and every entry that is not first: the runs that can pass it by are bounded exactly when each is sure to move something |
| DeletionFairness.HangingEntryStarves | internal/service/module_service.go:600-605 | from every queue there are runs at any times that hang on the first entry, change nothing and never attempt a given later one |
| DeletionFairness.OneHangingEntryIsEnough | internal/app/app.go:551-569 | such runs for any two releases published and deleted again, with any limit |
| DeletionFairness.NewEntriesComeBehind | internal/store/sqlite.go:1301-1307 | an entry queued after another became due never comes ahead of it |
| WorkerRuns.WorkerThreadRunsTheLoop | internal/service/module_service.go:557-620 | a worker thread of the lifecycle that meets no other ends with the tables, objects and counters of the loop's specification, whatever fails |
| ArtifactDeletions.ArtifactService.ProcessArtifactDeletion | internal/service/module_service.go:600-620 | one entry: reference check, removal, completion, and what each failing call leaves behind |
| Reconcile.ReconcileArtifacts | internal/service/reconcile.go:26-104 | the report in its order: missing, corrupt, orphaned, deleted and remaining, what repair removes, and what is reported when a call fails on the way; undisturbed, repair removes exactly what was listed, is referenced by no row, has a name that leads to a module and was updated before the start |
| Reconcile.RepairOrphan | internal/service/reconcile.go:106-131 | one orphan, whatever its kind: the module in its name, lock, reference check, age and removal, and what each failing call leaves behind |
| Reconcile.RepairRemovesOrphans | internal/service/reconcile.go:85-101 | whatever fails or changes meanwhile, repair removes only orphans whose name leads to a module, that no row references by then and that were updated before the start, and all of those if no call fails |
| Reconcile.AllByFate | internal/service/reconcile.go:85-101 | with no failing call, what is removed is what is reported as deleted, and all orphans stay reported but those a row has come to name |
| Reconcile.QuietRepair | internal/service/reconcile.go:106-131 | with nothing else running the objects left are exactly those not listed, referenced, not judged or too recent |
| Reconcile.ArtifactsAreJudged | internal/service/reconcile.go:107-110 | published artifacts are judged, by their own module, exactly with a prefix that path.Join leaves as it is |
| Reconcile.LeftProbesGo | internal/service/module_service.go:1182-1199 | with such a prefix an old probe of a readiness check is removed by repair, otherwise it is left |
| Reconcile.NoPrefixNoRepair | internal/service/reconcile.go:133-137 | without a prefix no object at all is judged |
| Reconcile.RepairThreadAgrees | internal/service/reconcile.go:106-131 | the lifecycle's repair thread does to an object what its fate says |
| Reconcile.ReachableWorldsReconcile | internal/service/reconcile.go:50-74 | no reachable state has a local release that would be reported missing or corrupt |
| Reconcile.ReportedExactly | internal/service/reconcile.go:50-74 | reported missing is exactly what a row names and is not stored, and corrupt what differs in size, or in checksum if there is one, from what a row records |
| Reconcile.VerifiedUpToUnreadable | internal/service/reconcile.go:55-65 | verification goes on until the first stored object that cannot be read |
| Reconcile.LastMentionCounts | internal/service/reconcile.go:71-77 | when an object was updated is what its last mention in the listing says |
| ArtifactPaths.ReleasePathsAreInjective | internal/service/module_service.go:207-207 | for any prefix, two publications share an object name only if they share owner, name, version and checksum |
| ArtifactPaths.RepairLocksThePublishersModule | internal/service/reconcile.go:133-143 | the identity parsed from a published object's name is the publisher's exactly when the prefix is clean and not empty, and otherwise none |
| ArtifactPaths.RepairJudgesProbes | internal/service/reconcile.go:133-143 | the identity parsed from a probe's name is its directory and its own id, as if they named a module, exactly with a clean prefix that is not empty |
| ArtifactPaths.JudgedNames | internal/service/reconcile.go:133-143 | an identity is parsed exactly from names with two segments that are not empty right below a prefix that is not empty |
| StoreKeys.KeyBelow | internal/storage/path.go:8-13 | an artifact's key is its name exactly without a leading slash in the prefix, and every key is its own key |
| StoreKeys.KeysTellReleasesApart | internal/storage/path.go:8-13 | two releases share a key only if they are the same with the same checksum |
| StoreKeys.RepairTakesLiveExactly | internal/storage/s3.go:271-294 | among any releases recorded under a prefix, the object of a live one is repaired away by its key exactly when the prefix has a leading slash and is otherwise repairable |
| StoreKeys.RootedPrefixLosesReleases | internal/service/reconcile.go:106-131 | with the prefix /modules every release is such a one |
| StoreKeys.PruningTakesLiveExactly | internal/service/upstream_cache.go:41-60 | pruning lists an artifact's key exactly when the prefix's first segment starts like the cache directory, and finds no row for a live one exactly when there is a leading slash, too |
| StoreKeys.RepairableIsUnrooted | internal/service/reconcile.go:40-43 | repair works in a store that keeps names exactly with such prefixes without a leading slash |
| ArtifactPaths.VersionIsPlain | internal/domain/version.go:24-36 | an accepted version is a single plain path segment |
| ArtifactPaths.ValidVersionsAreReleases | internal/domain/version.go:24-36 | the versions that may be published are exactly the full texts `major.minor.patch[-pre][+build]`, without `v` or blanks |
| ObjectNames.CacheNameStaysInCache | internal/service/module_service.go:1813-1826 | a cached file's name lies in the cache directory exactly when its cleaned path does not climb out of it or lead nowhere |
| ObjectNames.ArtifactsStayOutOfCache | internal/service/upstream_cache.go:41-41 | in a store that lists names as they are, an artifact's name is among what pruning lists exactly when the configured prefix leads into the cache |
| ObjectNames.RepairSparesTheCache | internal/service/reconcile.go:133-143 | repair leaves every cache entry alone exactly when its listing prefix does not lead into the cache |
| ObjectNames.NamesTellPathsApart | internal/service/module_service.go:207-207 | unless the prefix leads into the cache, different artifacts, cache entries and other objects have different names |
| VersionOrder.SortKeyIsExact | internal/store/release_pagination.go:24-53 | comparing sort keys as text has the sign of CompareVersions for all strings, valid versions or not, whose numbers have at most so many digits, exactly when that is less than 10^10 |
| VersionOrder.LongNumbersBreakTheOrder | internal/store/release_pagination.go:36-38 | two version strings, with a number of 10^10 digits in one: the greater has the smaller key |
| VersionOrder.ComparisonIsTotalPreorder | internal/domain/version.go:9-22 | CompareVersions is a total preorder on all strings |
| VersionOrder.PagesAgreeExactly | internal/store/version.go:43-51 | the SQL page order and the in-memory sort put all versions with at most so many digits to a number in the same order exactly when that is less than 10^10 |
| VersionOrder.ReleaseVersionOrder | internal/store/release_pagination.go:26-53 | the builder's loops produce the specified key |
| VersionGrammar.NormalizedExactly | internal/domain/version.go:38-51 | a text is taken for a version exactly when it is one by the grammar, or one of the two shorthands, with or without `v` and blanks around, and for that very version |
| VersionGrammar.ReleasesAreTakenAsWritten | internal/domain/version.go:38-51 | any major, minor and patch version, pre-release and build identifiers: the text is taken for exactly these |
| VersionGrammar.ShorthandsAreTaken | internal/domain/version.go:38-51 | `1.2` is taken for `1.2.0` and `1` for `1.0.0`, with or without `v` |
| VersionGrammar.VersionsCompareByPrecedence | internal/domain/version.go:9-22 | two texts of versions compare as section 11 of Semantic Versioning 2.0.0 says, and equal exactly when only build identifiers, blanks, `v` and shorthand differ |
| VersionGrammar.OtherTextsCompareBelow | internal/domain/version.go:9-22 | any other text is below every version, and two of them compare by their trimmed text |
| VersionGrammar.NumericIsDecimal | internal/domain/version.go:38-51 | the numeric identifiers are exactly the decimal texts of the numbers |
| LatestVersion.CandidateKeepsLatest | internal/store/version.go:23-31 | the create-time step keeps the latest version greatest |
| LatestVersion.LatestOfRows | internal/store/sqlite.go:1627-1650 | the delete-time fold finds a greatest version whatever order the rows come in |
| LatestVersion.LatestIsUniqueUpToPrecedence | internal/store/sqlite.go:1627-1650 | any two ways of finding the latest version agree up to precedence |
| LatestVersion.LatestOf | internal/store/version.go:10-21 | the first of the greatest versions |
| LockTable.MutualExclusion | internal/store/sqlite.go:358-385 | at most one attempt holds a key, and all attempts on a key share the entry in the table |
| LockTable.ReferencesCountUsers | internal/store/sqlite.go:387-394 | the reference count is the number of waiting, holding and leaving attempts; tokens plus holders is one |
| LockTable.UnlockNeverBlocks | internal/store/sqlite.go:378-384 | the send on the semaphore of a held lock finds it empty |
| LockTable.FreeLockCanBeTaken | internal/store/sqlite.go:370-375 | a wanted key that nobody holds can be taken: no wake-up is lost |
| LockTable.IdleTableIsEmpty | internal/store/sqlite.go:387-394 | once all attempts are through, cancelled or not, the table is empty |
| LockTable.StepRefinesLocks | internal/store/sqlite.go:358-394 | seen as who holds what, a step takes a lock nobody holds, gives up its own, or changes nothing |
| LockTable.StepKeepsInv | internal/store/sqlite.go:358-394 | sharing, counting and the one-token rule are inductive |
| LockTable.LockKeysAreInjective | internal/store/sqlite.go:359-359 | two modules share a lock key only if they are the same module |
| LockTable.ModuleLocks.Enter | internal/store/sqlite.go:359-368 | in place, the section that finds or creates the entry of a module's key is a step of the system |
| LockTable.ModuleLocks.TryTake | internal/store/sqlite.go:370-375 | in place, receiving succeeds exactly when the token is there |
| LockTable.ModuleLocks.Cancel | internal/store/sqlite.go:371-373 | in place, a cancelled waiter only drops its reference |
| LockTable.ModuleLocks.Unlock | internal/store/sqlite.go:377-384 | in place, unlocking puts the token back and drops the reference |
| LeaseTable.LeaseStore.AcquireLease | internal/store/sqlite.go:721-735 | succeeds exactly when nobody else has the lease unexpired, so the holder can always renew it, and then it is the holder's from now on for its duration |
| LeaseTable.LeaseStore.ReleaseLease | internal/store/sqlite.go:737-742 | removes the lease exactly when it is the holder's |
| ArtifactLeases.LiveMeansOwned | internal/proxy/forge_proxy.go:893-964 | whenever a worker's lease context is live, the SQL row is its own and unexpired |
| ArtifactLeases.LiveWorkersAreExclusive | internal/proxy/forge_proxy.go:200-216 | two live workers never share an object path |
| ArtifactLeases.UnsoundTimingBreaksExclusion | internal/proxy/forge_proxy.go:941-964 | whenever the timing bound fails there is a run with two live workers on one path |
| ArtifactLeases.RegistryTimingIsSound | internal/proxy/forge_proxy.go:78-78 | with the default lease the bound is that the delays stay below 45 seconds |
| BackgroundLeases.OneReplicaWorks | internal/app/app.go:501-529 | a replica that works holds an unexpired lease, so two replicas never do the same work |
| BackgroundLeases.UnsoundDisciplineBreaksExclusion | internal/app/app.go:501-529 | whenever the bound fails there is a run on which two replicas do the same work |
| BackgroundLeases.RegistryDisciplines | internal/app/app.go:364-408 | exactly which delays the retention, deletion and refresh leases allow, at each interval and at all |
| ExpiryHeap.Heap.Push | internal/throttle/expiry_set.go:32-36 | keeps heap order and back-pointers and adds the entry |
| ExpiryHeap.Heap.Pop | internal/throttle/expiry_set.go:38-45 | takes off an entry that no other is less than, keeping order and back-pointers |
| ExpiryHeap.Heap.Remove | internal/throttle/expiry_set.go:81-90 | takes off the entry at any position, keeping order and back-pointers |
| ExpiryHeap.Heap.Up | internal/throttle/expiry_set.go:19-30 | the sift-up loop restores order and keeps the entries |
| ExpiryHeap.Heap.Down | internal/throttle/expiry_set.go:19-30 | the sift-down loop restores order below a hole and reports whether it moved anything |
| ExpirySet.ExpirySet.Record | internal/throttle/expiry_set.go:65-79 | seen as a map from keys to deadlines: drops what is due, refuses a live key, evicts the first to expire when full |
| ExpirySet.ExpirySet.Forget | internal/throttle/expiry_set.go:81-90 | removes exactly the key |
| ExpirySet.ExpirySet.RemoveExpired | internal/throttle/expiry_set.go:104-108 | the pop loop is filtering out what is due |
| ExpirySet.FirstIsUnique | internal/throttle/expiry_set.go:19-24 | the first to expire is unique, so eviction is determined |
| ExpirySet.AcceptedAnIntervalApart | internal/throttle/expiry_set.go:65-79 | with a clock that never runs back, two accepted records of a key not forgotten or evicted between are an interval apart |
| ExpirySet.RefusedWithinTheInterval | internal/throttle/expiry_set.go:65-79 | a record is refused only within the interval of the last accepted one of its key, which was not forgotten or evicted since |
| ExpirySet.SizeBounded | internal/throttle/expiry_set.go:72-74 | the size never exceeds maxEntries |
| RateLimiter.RateLimiter.Allow | internal/httpapi/rate_limiter.go:72-97 | seen as a map of buckets: fixed windows with at most maxKeys of them |
| RateLimiter.WindowAdmitsTheFirst | internal/httpapi/rate_limiter.go:72-97 | in each window exactly the first `limit` requests are admitted |
| RateLimiter.LimitersAgree | internal/store/sqlite.go:266-287 | the SQL counter decides every request as memory does, on any run with one limit and window, no eviction and a clock that never runs back |
| RateLimiter.DecideAlike | internal/store/sqlite.go:266-287 | memory holds the SQL count capped at the limit, and one request keeps that so |
| ResponseCache.ResponseCache.Get | internal/proxy/cache.go:43-55 | what is served, byte accounting holds, and a miss drops the entry only past its retention |
| ResponseCache.ResponseCache.GetStale | internal/proxy/cache.go:57-76 | what is served and what is dropped, and byte accounting holds |
| ResponseCache.ResponseCache.Set | internal/proxy/cache.go:87-109 | taken in one go: over a limit, expired entries go and then the shortest prefix in deadline order, and limits that held before hold after |
| ResponseCache.ResponseCache.Store | internal/proxy/cache.go:88-105 | the first section of a Set: what it stores, and whether it then has to evict |
| ResponseCache.ResponseCache.Evict | internal/proxy/cache.go:111-137 | eviction restores the limits by removing the shortest prefix in deadline order |
| ResponseCache.TotalWithout | internal/proxy/cache.go:78-85 | the byte total is independent of the order of the entries |
| ResponseCache.ServedExactly | internal/proxy/cache.go:43-137 | after any interleaving of the sections of all calls, with no clock past the reader's, what is served fresh or stale under a key is exactly the entry stored last, unless it was too large, is too old or was trimmed off |
| ResponseCache.LimitsHold | internal/proxy/cache.go:87-137 | on every such run both limits hold whenever no Set is between storing and evicting |
| ResponseCache.EvictionGoesByDeadline | internal/proxy/cache.go:125-136 | no entry is evicted while one with an earlier deadline stays |
| UploadReader.UploadReader.Read | internal/proxy/forge_proxy.go:834-869 | each Read replies as specified, for any source, buffer size and answers |
| UploadReader.HistoryIsTrue | internal/proxy/forge_proxy.go:858-868 | on every run the data of the replies together is what counts as received, and the data of the source's answers what counts as given |
| UploadReader.StatusIsDue | internal/proxy/forge_proxy.go:834-869 | excess is reported exactly when the source gave what is not handed over, at the limit; otherwise the source's own status, but an end at another length than the declared one is a mismatch |
| UploadReader.EndMeansComplete | internal/proxy/forge_proxy.go:834-869 | at a reported end the data handed to the consumer is all that the source gave exactly when no earlier Read reported excess; its length is as declared and bounded |
| UploadReader.EndAfterExcessIsIncomplete | internal/proxy/forge_proxy.go:842-851 | a run on which the end is reported after an excess error and a byte was not handed over |
| UploadReader.ConformingIsDelivered | internal/proxy/forge_proxy.go:834-869 | a source of fitting length is never refused, and what the consumer is handed is its data unchanged, up to its end |
| UploadReader.EndIsReached | internal/proxy/forge_proxy.go:834-869 | if every answer makes progress, the end comes within one Read more than there are bytes |
| Refresh.EveryModuleIsAttempted | internal/store/sqlite.go:1861-1907 | every upstream module is attempted within ceil(modules / limit) completed cycles, even if every sync fails |
| Refresh.CycleReachesNewModules | internal/store/sqlite.go:1861-1869 | each cycle takes `limit` modules not yet attempted, or all that remain |
| Refresh.PoolAccounts | internal/service/module_service.go:1328-1389 | under any schedule each listed module is attempted at most once, attempted is succeeded plus failed, and without cancellation all are |
| Refresh.PoolAnswers | internal/service/module_service.go:1363-1395 | under any schedule the cycle succeeds exactly when every listed module was attempted and synced, reports an interruption exactly when a cancellation left one out, and never reports itself incomplete |
| Refresh.Collect | internal/service/module_service.go:1363-1395 | the loop over the results counts them and answers as specified |
| SqliteTime.TextOrderIsTimeOrder | internal/store/sqlite.go:1145-1150 | comparing timestamps as text is comparing them as times |
| SqliteTime.ScanUndoesFormat | internal/store/sqlite.go:1094-1128 | scanning a written timestamp, trying the three layouts in order, gives the same time in UTC |
| SqliteTime.ScanReadsZones | internal/store/sqlite.go:1094-1128 | with a `T` or a blank between date and time and a zone behind, scanning gives the time and the zone's offset, its sign included |
| SqliteTime.FractionsAreCutOff | internal/store/sqlite.go:1094-1128 | digits of a fraction after the ninth are dropped |
| SqliteTime.LayoutsAreDisjoint | internal/store/sqlite.go:1116-1121 | no text fits two of the layouts, so their order does not matter |
| Authorizer.Authorizer.AuthenticateOIDC | internal/auth/auth.go:359-403 | finds a principal exactly when some mapping names the identity, with exactly the permissions of all that do, and for who only publishes the team of one of them |
| Authorizer.NewAuthorizer | internal/auth/auth.go:117-302 | accepts exactly the valid configurations that reuse no token, and compiles directories that index all their tokens and mappings |
| Authorizer.Authorizer.AuthenticateToken | internal/auth/auth.go:339-349 | finds a principal exactly when some configuration has the token in a list; it may read, publish to the owners of the configuration that has it among its publish tokens or records, and delete anything as an admin if it is an admin token, and nothing else |
| Authorizer.LetInAgreesWithSearch | internal/auth/auth.go:359-403 | an identity is granted something exactly when an email, subject, group or domain in a list of some configuration is its own, once blanks and letter case are normalised |
| Authorizer.RolesAreKeptApart | internal/auth/auth.go:312-333 | of accepted configurations only the reserved team's mappings make admins, and an identity can only publish to valid owners or the bootstrap team |
| Authorizer.OffersAreListed | internal/auth/auth.go:205-256 | what is registered under token keys is exactly what the configurations list for their roles |
| Authorizer.OneGrantPerToken | internal/auth/auth.go:139-146 | of accepted configurations at most one offers a key, and for one role |
| AccessTokens.Register | internal/auth/auth.go:139-172 | the loop accepts a list of tokens exactly when no key is reused, and then holds exactly what is offered |
| Authorizer.PublishAgreesWithSearch | internal/auth/auth.go:84-90 | publishing to an owner is allowed exactly when a publish or team-admin list of a configuration that has the owner, as its team or as a listed one, names the identity |
| Authorizer.DeleteAgreesWithSearch | internal/auth/auth.go:70-82 | deleting is allowed exactly when an admin list names the identity, or a team-admin list of that very team |
| Authorizer.OrderDoesNotMatter | internal/auth/auth.go:405-448 | permissions, and the team of admins and team admins, do not depend on the order of configurations or groups |

## Left out

- HTTP handlers, pages, logging, metrics, configuration and command line: no deep state.
- Postgres: its transactions mirror those of SQLite; losing an advisory lock with its connection is not modelled.
- Checksums are an injective function of the bytes (`Sha256`); MD5 values are arbitrary text. The token hasher is a parameter.
- Strings are sequences of code points, whose order is the byte order of valid UTF-8; invalid UTF-8 is not modelled.
- Columns that no branch depends on (descriptions, read-me texts, slugs, metadata, creation times) are not in the rows.
- A new upstream row's id is its version; a local row's id comes with the request.
- A database commit that takes effect after its failure was reported and the row re-read is not modelled, nor is a late delete of a cache entry, which is fetched again.
- A cancelled wait for a lock or lease ends the job; retrying is a new job.
- Reconciliation and pruning are one thread per object in the lifecycle; the cache fills of a checksum job are threads of their own, and what an upstream delivers is arbitrary.
- An artifact prefix that leads into the cache directory is not part of the lifecycle, nor one that only starts like it when the store lists by cleaned keys; `ObjectNames` and `StoreKeys` say which prefixes do.
- The proxy names cache entries by the decoded URL path and the service by the raw file URI; the model has one name per entry.
- The lifecycle and reconciliation are about a store that keeps and lists objects under the names they were written with; `StoreKeys` says for which prefixes a store with cleaned keys is one.
- Audit events, release usage and the checks for active releases: refusing a deletion because of recent use is a free choice.
- `strings.ToLower` is a parameter of the authorizer; names and descriptions of stored tokens are not part of it.
- Gzip, tar and JSON decoding, OIDC exchange, object storage clients and schema migrations are not modelled.
- LifecycleTheorems.ReachableInv: a call takes effect before it is answered or its caller crashes, or not at all; deletes and uploads that land later are in LateEffects, where the invariant needs a condition.
- LifecycleTheorems.NoDanglingRelease: the same holds; with late deletes it is false without the condition of LateEffects.LateNoDanglingRelease, and with a leading slash in the prefix and a store of cleaned keys it is false of a repair, see StoreKeys.RepairTakesLiveExactly.
- SqliteStore.SqliteStore.CreateRelease: the audit event written in the same transaction and the descriptive columns are not modelled, because nothing is decided by them.
- ArtifactLeases.LiveWorkersAreExclusive: exclusion is among workers whose lease context is live; a waiting worker that finds the object cached goes on without a lease, and the lifecycle has such workers as unleased uploads.
- Refresh.EveryModuleIsAttempted: a cycle counts as completed once its attempts are recorded; a module whose attempt cannot be recorded is listed again.
- ExpiryHeap.Heap.Push: the rate limiter's heap keeps no positions; both structures share the heap that does.
