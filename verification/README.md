# Trinity-cache: a Dafny model

Trinity-cache is a pull-through cache for pacman repositories. This project models its four connected cores and proves
what every run of them keeps. Network and disk calls are steps that succeed or fail; nothing is assumed about which.

**Mirror scheduling and the retry loop** (`Mirrors`, `Fleets`, `Scheduler`, `FetchProtocol`, `FetchSafety`, `FetchOutcomes`,
`Downloader`, `SoloRuns`). `Scheduler` and `Downloader` hold the classes, with fields updated in place. `FetchProtocol.Apply` is a state
machine of any number of concurrent callers of `FetchVersion` and of pool workers inside `Download`, sharing the mirrors,
the recorded keys and the recovery ticks; one event is one action under a lock or one transfer, and an interleaving is a
sequence of events. `SoloRuns` shows that the sequential classes are runs of that machine. Weights are reals.

**The worker pool** (`WorkerPool`, `PoolOutcomes`, `DownloadPool`). `WorkerPool.Apply` is a state machine with the bounded queue, the stop
signals, the wait-group and a program counter for each worker and each call of `Queue`. A call of `Queue` is two steps,
since the source releases its lock between the running check and the send. A stopped pool can be started again; its queue
stays closed, since the source makes it once. `DownloadPool` is the class.

**Cache, retention and version index** (`Disks`, `Versions`, `FilesystemCaches`, `RetentionManagers`, `CacheRuns`,
`VersionTracker`). A disk is a map from paths below the storage directory to bytes, with a set of directories. Versions are
ordered as strings, as the configuration guide promises (`CONFIG.md:122`). `Versions.Kept` says which versions a retention
keeps without speaking of lists: those with fewer than `keep` versions above them.

**Requests and cache transparency** (`Text`, `PacmanRequest`, `Gateway`, `HTTPServers`). `Gateway.Apply` is a state machine
of any number of request handlers, interleaved at every system call with each other and with additions, removals and
retention passes. `HTTPServers` is the sequential handler, a run of that machine.

Where the source disagrees with its own documentation the code is followed:

- The comment at `internal/server/http_server.go:496-498` reads `linux-6.7.1-1-x86_64.pkg.tar.zst` as `linux` and
  `6.7.1-1`. The code reads `linux-6.7.1` and `1`, as `internal/server/http_server_test.go:282-287` expects.
  `PacmanRequest.ReleaseDecides` says exactly when a release is taken for the version, and `PacmanRequest.CommentExample` is
  that file name.
- A successful `Add` does not mean that the version is there, though its comment says that it ensures so
  (`internal/cache/filesystem_cache.go:98`): `CacheRuns.AddStores` gives the exact condition, and `CacheRuns.AddExample` is
  an addition that succeeds and stores nothing.
- `Stop` of the pool is called graceful, but a send can crash the program afterwards: `WorkerPool.CrashNeedsStraggler` says
  exactly when, and `WorkerPool.StragglerExample` is a run from a new pool.
- Nor does `Stop` drain the queue, unless it is empty already: `WorkerPool.StopDrainsOnlyEmpty` is the exact condition, and
  `WorkerPool.AbandonedExample` a run from a new pool.
- The cap of 100 workers (`internal/downloader/worker_pool.go:52-54`) does not bound the tasks in hand once a pool is
  started again. `WorkerPool.BoundedParallelism` says exactly when the cap can be exceeded: if and only if the pool holds
  more tasks, in hand and queued, than it has workers when `Stop` runs. `WorkerPool.HandsAfterStop` gives the exact numbers,
  and `WorkerPool.RestartExample` is a run that has two tasks in hand with a cap of one.
- The number of removals that `EnforceNow` reports can exceed the files really removed, because of stray `.pkg` files and
  because a removal that fails is counted too. `RetentionManagers.RetentionManager.EnforceNow` says exactly when the number
  is right, and `RetentionManagers.StrayExample` is a directory where it is not.

`dafny verify dfyconfig.toml` checks the whole project.

## Model

| member | source | states |
|---|---|---|
| `Mirrors.ScorePositive` | internal/mirror/mirror.go:137-177 | a mirror has a positive score if and only if it has weight |
| `Mirrors.ScoreMonotone` | internal/mirror/mirror.go:137-177 | more weight, fewer downloads in flight and a longer idle time never lower the score |
| `Mirrors.ScoreStrict` | internal/mirror/mirror.go:137-177 | with weight left, more weight, fewer downloads in flight or a greater boost each raise the score strictly |
| `Mirrors.ScoreWeighsLoad` | internal/mirror/mirror.go:156-176 | scores compare as weight boosted by idle time does for the downloads in flight, by cross products |
| `Mirrors.RateKept` | internal/mirror/mirror.go:211-213 | a rate from above zero to one is kept, and any other becomes 0.05 |
| `Mirrors.RecoveredAbove` | internal/mirror/mirror.go:241 | a weight that is not below its base is left alone |
| `Mirrors.RecoveredDeficit` | internal/mirror/mirror.go:239-252 | the clamp at the base weight never fires, and a recovery leaves the fraction `1 - rate` of the deficit |
| `Mirrors.PenaltiesAdd` | internal/mirror/mirror.go:180-196 | despite the clamp only the sum of penalties matters, not their order, and weight is left exactly when the sum stays below it |
| `Mirrors.StepContracts` | internal/mirror/mirror.go:180-256 | one penalty or recovery keeps two weights in order and in range, and a recovery shrinks the gap between them |
| `Mirrors.PenaltiesFade` | internal/mirror/mirror.go:180-256 | two weights under the same events keep their order, with a gap of at most `(1-r)^k` times the first gap after `k` recoveries, whatever the clamps do |
| `Mirrors.RecoveryIsGeometric` | internal/mirror/mirror.go:202-256 | after `n` ticks without penalties the deficit is exactly `(1-r)^n` times the first, for any rate that `StartRecovery` lets through |
| `Mirrors.RecoveryIsFast` | internal/mirror/mirror.go:202-256 | that deficit is at most the first one divided by `1 + n*r` |
| `Fleets.SelectionIsCorrect` | internal/mirror/mirror.go:103-135 | selection finds the first mirror of greatest score, and fails exactly when no mirror has positive weight |
| `Fleets.SelectionByMerit` | internal/mirror/mirror.go:103-177 | by weight, idle time and load alone: a mirror is selected if and only if it is the first with weight that no other outweighs, and none exactly when no mirror has weight |
| `Fleets.TickKeepsRange` | internal/mirror/mirror.go:239-252 | a recovery tick keeps weights within their range, lowers none, and gives weight to every mirror with a positive base weight |
| `Fleets.TickEndsStarvation` | internal/mirror/mirror.go:106-135 | right after a recovery tick selection succeeds if any base weight is positive |
| `Fleets.PenaltyCostsAtMost` | internal/mirror/mirror.go:180-196 | a penalty takes at most its amount from the total weight and keeps the range |
| `Scheduler.Mirror.constructor` | cmd/trinity-cache/main.go:150-156 | a mirror starts with its effective weight at its base weight |
| `Scheduler.StateShows` | internal/mirror/mirror.go:15-22 | the scheduler sees the weights, the last use and the downloads in flight of the mirror itself |
| `Scheduler.Mirror.AddInFlightDownload` | internal/mirror/mirror.go:25-29 | counts one more, and changes nothing else |
| `Scheduler.Mirror.RemoveInFlightDownload` | internal/mirror/mirror.go:33-39 | counts one less, but not below zero |
| `Scheduler.WeightedSelector.Add` | internal/mirror/mirror.go:87-92 | appends the mirror and its state to what is known |
| `Scheduler.WeightedSelector.Select` | internal/mirror/mirror.go:106-135 | the loop returns the mirror that `Fleets.Selected` names, which `Fleets.SelectionByMerit` pins down, or the error that fits |
| `Scheduler.WeightedSelector.Penalize` | internal/mirror/mirror.go:180-196 | lowers the weight of one mirror with the clamp at zero and marks it used, wherever it is in the list; all other mirrors stay |
| `Scheduler.WeightedSelector.StartRecovery` | internal/mirror/mirror.go:202-222 | a rate outside (0, 1] becomes the default, and a running recovery keeps its rate |
| `Scheduler.WeightedSelector.RecoverWeights` | internal/mirror/mirror.go:238-253 | the loop recovers each mirror as often as it was added, so it is one tick of the fleet when none was added twice |
| `Scheduler.WeightedSelector.Stop` | internal/mirror/mirror.go:259-271 | asks a running recovery to end, panics when that was asked before, and otherwise changes nothing |
| `Scheduler.WeightedSelector.EndRecovery` | internal/mirror/mirror.go:227-237 | a recovery that sees the stop signal is not running any more |
| `FetchSafety.StepTouchesOwnKey` | internal/downloader/fetch_manager.go:91-105 | a caller adds only its own key, when it was not recorded, and deletes only the key it holds; a rejected caller touches none |
| `FetchSafety.SingleFlightAlways` | internal/downloader/fetch_manager.go:85-133 | in every interleaving the recorded keys are exactly those of the callers between claim and release, and no two of them share a key |
| `FetchSafety.KeyInjective` | internal/downloader/fetch_manager.go:91 | keys of distinct pairs of name and version differ when names hold no colon |
| `FetchSafety.CallsEnd` | internal/downloader/fetch_manager.go:101-133 | a call ends and has released its key after at most `4 * retries + 5` actions of its own, in every interleaving |
| `FetchSafety.AccurateAlways` | internal/downloader/http_downloader.go:134-141 | in every interleaving each mirror's counter counts the callers inside `downloadFromMirror` for it |
| `FetchSafety.CountersReturn` | internal/mirror/mirror.go:25-39 | the floor at zero is never used, and when all calls have ended every counter is back at its start value |
| `FetchSafety.SoundAlways` | internal/mirror/mirror.go:180-256 | in every interleaving each weight stays between zero and its base weight |
| `FetchSafety.NoStarvation` | internal/mirror/mirror.go:224-256 | after any interleaving and one more tick, selection succeeds if any base weight is positive |
| `FetchSafety.StepCharges` | internal/downloader/http_downloader.go:111-127 | what a call has cost so far grows by exactly the penalty that its step applies |
| `FetchSafety.Budget` | internal/downloader/http_downloader.go:98-128 | in every interleaving, ticks included, the total weight falls by at most the penalties applied |
| `FetchSafety.CallCost` | internal/downloader/fetch_manager.go:107-130 | a `FetchVersion` that succeeds after `k` failures costs `k + 0.8`, one that fails at most `retries + 1`; for a pool worker `k + 0.5` and at most `retries`; a call turned away costs nothing |
| `FetchSafety.SelectionWithinBudget` | internal/mirror/mirror.go:103-135 | while the penalties applied sum to less than the start total, selection cannot fail |
| `FetchOutcomes.StartClaims` | internal/downloader/fetch_manager.go:86-99 | a call claims exactly when it has name and version and its key is not recorded |
| `FetchOutcomes.ClaimSelects` | internal/downloader/fetch_manager.go:107-117 | after any run a call that has claimed goes on with the first best mirror, and fails when no mirror has weight |
| `FetchOutcomes.RetryRotates` | internal/downloader/http_downloader.go:98-109 | after any run a retry takes the first best mirror of that moment, and never one without weight while another has some |
| `FetchOutcomes.AttemptPenalizes` | internal/downloader/http_downloader.go:111-127 | the mirror that was chosen is transferred from, and penalized by the outcome of the transfer |
| `FetchOutcomes.OutcomesAreTrue` | internal/downloader/http_downloader.go:97-130 | in every interleaving a call reports success after `k` failures exactly when it had `k` failed transfers and then one that succeeded, and failure only after a failed transfer for each retry |
| `Downloader.Attempts` | internal/downloader/http_downloader.go:98-130 | the retry loop succeeds with the first transfer that does, and fails after the last one |
| `Downloader.HTTPDownloader.constructor` | internal/downloader/http_downloader.go:55-86 | fewer than one retry means three |
| `Downloader.HTTPDownloader.SetRetries` | internal/downloader/http_downloader.go:228-232 | takes only a positive count |
| `Downloader.HTTPDownloader.DownloadFromMirror` | internal/downloader/http_downloader.go:134-225 | the in-flight counter is back where it was, whether the transfer succeeds or not |
| `Downloader.HTTPDownloader.MirrorFor` | internal/downloader/http_downloader.go:99-109 | a retry selects anew and falls back to the original mirror, as `Downloader.AttemptRotates` spells out |
| `Downloader.AttemptRotates` | internal/downloader/http_downloader.go:98-127 | a retry uses and penalizes the first best mirror of that moment; the first attempt, and a retry when no mirror has weight, use the original |
| `Downloader.HTTPDownloader.Attempt` | internal/downloader/http_downloader.go:99-127 | one round penalizes the mirror it used, by 0.5 on success and 1.0 on failure |
| `Downloader.HTTPDownloader.Download` | internal/downloader/http_downloader.go:89-131 | the loop leaves mirrors, clock and outcome as `Downloader.Downloaded` says |
| `Downloader.FetchManager.constructor` | internal/downloader/fetch_manager.go:31-43 | nothing is in progress at first |
| `Downloader.FetchManager.IsInProgress` | internal/downloader/fetch_manager.go:185-190 | says whether the key of the pair is recorded |
| `Downloader.FetchManager.GetInProgress` | internal/downloader/fetch_manager.go:173-182 | returns every recorded key exactly once |
| `Downloader.FetchManager.FetchVersion` | internal/downloader/fetch_manager.go:85-133 | leaves the recorded keys as they were on every exit, mirrors and outcome as specified, and the version in the tracker exactly on success |
| `Downloader.FetchOutcome` | internal/downloader/fetch_manager.go:85-133 | each outcome of a call and what it takes: no name or version, key in progress, no weight, first success, or as many failures as retries; the download is from the first best mirror, which is penalized once more |
| `Downloader.FetchManager.FetchClaimed` | internal/downloader/fetch_manager.go:107-132 | with no mirror to select nothing changes; otherwise the mirrors and the outcome are those of a download from the selected one |
| `Downloader.FetchManager.FetchFrom` | internal/downloader/fetch_manager.go:116-132 | the mirrors and the outcome are those of a download from the selected mirror and one more penalty for it; the tracker learns the version exactly on success |
| `Downloader.FetchManager.SettleFetch` | internal/downloader/fetch_manager.go:118-130 | the penalty is 0.3 on success and 1.0 on failure, and only success updates the tracker |
| `SoloRuns.SoloFetch` | internal/downloader/fetch_manager.go:85-133 | the sequential `FetchVersion` is a run of the concurrent machine |
| `SoloRuns.SoloAttempts` | internal/downloader/http_downloader.go:98-130 | the sequential retry loop is a run of the concurrent machine |
| `SoloRuns.FetchSpendsAtMost` | internal/downloader/fetch_manager.go:107-130 | one `FetchVersion` lowers the total weight by at most `k + 0.8` on success after `k` failures and `retries + 1` on failure |
| `WorkerPool.WorkerCount` | internal/downloader/worker_pool.go:48-54 | there are between 1 and 100 workers |
| `WorkerPool.PoolConserves` | internal/downloader/worker_pool.go:43-198 | in every interleaving, restarts and crashes included, an accepted task is in exactly one of queue, workers and reports, the counters balance, the queue stays within twice the workers, and the wait-group counts the live workers |
| `WorkerPool.BoundedParallelism` | internal/downloader/worker_pool.go:48-86 | the tasks in hand never outnumber the clamped worker count in the first lifetime; from a running pool they can do so after a `Stop` if and only if the pool then holds more tasks, in hand and queued, than it has workers |
| `WorkerPool.HandsAfterStop` | internal/downloader/worker_pool.go:66-159 | `k` tasks can be in hand at some time after `Stop` if and only if the pool held `k` tasks then and two starts bring `k` workers to life |
| `WorkerPool.RestartExample` | internal/downloader/worker_pool.go:66-86 | a run from a new pool with one worker, in which two tasks are in hand after a restart |
| `WorkerPool.CrashNeedsStraggler` | internal/downloader/worker_pool.go:66-136 | after `Stop`, the program can crash without a restart if and only if some `Queue` call was between its check and its send; with a restart and no second stop if and only if some call was there or is yet to come with a valid task; a second stop always crashes it |
| `WorkerPool.StragglerExample` | internal/downloader/worker_pool.go:113-136 | a run from a new pool that crashes |
| `WorkerPool.WorkerLowersMeasure` | internal/downloader/worker_pool.go:139-198 | every action a worker takes lowers a measure of queue and workers |
| `WorkerPool.ShutdownIsBounded` | internal/downloader/worker_pool.go:89-110 | after a quiet `Stop`, every interleaving without restart holds at most that many more worker actions |
| `WorkerPool.ShutdownIsComplete` | internal/downloader/worker_pool.go:107-110 | when no worker can act, all have exited, the wait-group is zero, and each accepted task is reported once or left in the queue |
| `WorkerPool.ShutdownTerminates` | internal/downloader/worker_pool.go:89-110 | from every stopped state the workers can run to that end, reporting exactly the tasks in hand and leaving the queue as it is |
| `WorkerPool.StopDrainsOnlyEmpty` | internal/downloader/worker_pool.go:89-159 | whatever the workers are at, every run after `Stop` that ends the workers ends the queue if and only if the queue was empty when `Stop` ran |
| `WorkerPool.AbandonedExample` | internal/downloader/worker_pool.go:144-157 | a run from a new pool that leaves an accepted task in the queue with all workers gone |
| `DownloadPool.Pool.constructor` | internal/downloader/worker_pool.go:43-64 | the worker count is clamped to 1 to 100 and nothing runs |
| `DownloadPool.Pool.Start` | internal/downloader/worker_pool.go:67-86 | makes a new stop channel and starts every worker, unless the pool runs already; a stopped pool is started again |
| `DownloadPool.Pool.Spawn` | internal/downloader/worker_pool.go:80-83 | the loop brings as many workers to life as configured and counts each in the wait-group |
| `DownloadPool.Pool.Stop` | internal/downloader/worker_pool.go:89-105 | closes stop signal and queue together, fails when the pool does not run, and panics when the queue was closed before |
| `DownloadPool.Pool.QueueCheck` | internal/downloader/worker_pool.go:113-128 | a call gets past the check only when the pool runs and the task is complete |
| `DownloadPool.Pool.QueueSend` | internal/downloader/worker_pool.go:130-135 | a task is accepted at the back of the queue, or refused when the queue stays full; on the closed queue the send panics |
| `DownloadPool.Pool.WorkerReceive` | internal/downloader/worker_pool.go:144-152 | a worker takes the front task, or leaves when the queue is closed and empty |
| `DownloadPool.Pool.WorkerStop` | internal/downloader/worker_pool.go:154-156 | a worker leaves when its stop channel is closed |
| `DownloadPool.Pool.ProcessTask` | internal/downloader/worker_pool.go:162-198 | counts the task, raises the counter that fits its outcome and delivers that outcome in exactly one report |
| `DownloadPool.Pool.CountOutcome` | internal/downloader/worker_pool.go:173-195 | a success raises the counter of successes and a failure that of failures, and neither the other |
| `PoolOutcomes.CountersAreTrue` | internal/downloader/worker_pool.go:162-198 | in every interleaving the counters are the numbers of tasks whose downloads succeeded and failed |
| `PoolOutcomes.ReportsAreTrue` | internal/downloader/worker_pool.go:170-197 | in every interleaving a task is reported with an outcome only if its download had that outcome |
| `Versions.SortDescends` | internal/cache/filesystem_cache.go:162-165 | sorting distinct versions gives them newest first, with none lost or added |
| `Text.BeforeIsLexicographic` | internal/cache/filesystem_cache.go:162-165 | in the order of versions the first difference decides, or being a proper prefix |
| `Versions.DescendingUnique` | internal/cache/filesystem_cache.go:119-121 | a newest-first list is determined by its versions |
| `Versions.KeptIsPrefix` | internal/cache/filesystem_cache.go:187-193 | the kept versions are the first `keep` of the newest-first list |
| `Versions.KeptProperties` | CONFIG.md:122 | retention keeps `keep` versions or all if fewer, each above each removed one, and retaining twice is retaining once |
| `FilesystemCaches.NoOverlap` | internal/cache/filesystem_cache.go:146-152 | the slice that cuts the version out of a file name is always in range |
| `FilesystemCaches.VersionIn` | internal/cache/filesystem_cache.go:152-153 | the version cut out of a file name gives the same file name back |
| `FilesystemCaches.VersionOfFileName` | internal/cache/filesystem_cache.go:60 | the file name of any version is listed and read as that version |
| `FilesystemCaches.FileNameExample` | internal/cache/filesystem_cache.go:60 | a file name spelled out |
| `FilesystemCaches.FilesystemCache.Has` | internal/cache/filesystem_cache.go:49-70 | a missing directory or file means no, and any other failure is reported |
| `FilesystemCaches.FilesystemCache.Add` | internal/cache/filesystem_cache.go:88-117 | refuses empty names and versions, and otherwise leaves the disk as `FilesystemCaches.Added` says; `CacheRuns.AddSucceeds` and `CacheRuns.AddStores` say what that is |
| `FilesystemCaches.FilesystemCache.ListVersions` | internal/cache/filesystem_cache.go:121-169 | the loop returns exactly the versions on disk, newest first without repetition, and none for a missing directory |
| `FilesystemCaches.FilesystemCache.GetLatest` | internal/cache/filesystem_cache.go:73-85 | returns the greatest version on disk, and none exactly when there is none |
| `FilesystemCaches.FilesystemCache.Remove` | internal/cache/filesystem_cache.go:200-218 | takes one version file off the disk, and a missing one counts as removed |
| `FilesystemCaches.FilesystemCache.RetainMostRecent` | internal/cache/filesystem_cache.go:172-197 | the loop deletes exactly the versions that are not kept and whose removal goes through |
| `FilesystemCaches.FilesystemCache.PutRepoFile` | internal/cache/filesystem_cache.go:312-341 | moves the file to `repo/os/arch/filename`, or fails and moves nothing |
| `RetentionManagers.RetentionManager.constructor` | internal/cache/retention_manager.go:28-33 | keeps two versions by default |
| `RetentionManagers.RetentionManager.SetRetentionCount` | internal/cache/retention_manager.go:36-45 | takes counts from one on and refuses the others |
| `RetentionManagers.RetentionManager.CountPackages` | internal/cache/retention_manager.go:79-84 | the loop counts the `.pkg` files of a package directory |
| `RetentionManagers.RetentionManager.EnforcePackage` | internal/cache/retention_manager.go:69-102 | the skip test never skips a package that has versions to delete |
| `RetentionManagers.RetentionManager.EnforceNow` | internal/cache/retention_manager.go:48-111 | deletes exactly the expired versions of every package reached; the count reported is at least the files gone, and right if and only if every package with more files than are kept has no strays and only removals that go through |
| `RetentionManagers.ReportedOne` | internal/cache/retention_manager.go:79-101 | the count for one package is right if and only if it is not reached, has no more files than are kept, or has no strays and only removals that go through; otherwise it is too high |
| `RetentionManagers.RetentionManager.EnforceEntries` | internal/cache/retention_manager.go:63-103 | the loop over the entries leaves the disk as after the packages among them, and sums up what they report |
| `RetentionManagers.StrayExample` | internal/cache/retention_manager.go:79-101 | a directory with one version and one stray, of which nothing is deleted and one removal is reported |
| `RetentionManagers.PkgCount` | internal/cache/filesystem_cache.go:136-152 | the `.pkg` files of a package are its versions and its strays |
| `CacheRuns.EnforcementIsRetention` | internal/cache/retention_manager.go:63-103 | an enforcement does to each package it reaches what a retention of that package does, even when removals fail, and nothing to others |
| `CacheRuns.ExactRetention` | internal/cache/retention_manager.go:48-111 | every package that is reached and whose own removals go through is left with its `keep` greatest versions, or all if fewer, each above each removed one, and the same newest version |
| `CacheRuns.KeptLeft` | internal/cache/filesystem_cache.go:172-197 | a retention leaves exactly the kept versions if and only if the removals it asks for go through |
| `CacheRuns.EnforcementIsIdempotent` | internal/cache/retention_manager.go:48-111 | a second enforcement after one that worked changes nothing, whatever its faults |
| `CacheRuns.RegularAlways` | internal/cache/filesystem_cache.go:88-218 | every run of additions, removals, retentions and stores keeps the directory tree well formed, with no directory in place of a version file |
| `CacheRuns.ListingAgrees` | internal/cache/filesystem_cache.go:49-70 | after every run, `Has` says yes exactly for the versions that `ListVersions` lists |
| `CacheRuns.RemovalFrame` | internal/cache/filesystem_cache.go:172-218 | every run of removals, retentions and enforcements deletes only files `name/name-version.pkg` of packages it touches, and every other file keeps its content |
| `CacheRuns.RemoveIsExact` | internal/cache/filesystem_cache.go:200-218 | a removal takes exactly its version out of the listing, and says exactly when it succeeds |
| `CacheRuns.AddFrame` | internal/cache/filesystem_cache.go:88-117 | an addition changes no file but the one it moves and the place it moves it to |
| `CacheRuns.AddSucceeds` | internal/cache/filesystem_cache.go:88-117 | an addition succeeds if and only if the package directory can be made and the file is in place already, cannot be seen, or can be moved |
| `CacheRuns.StoreIsExact` | internal/cache/filesystem_cache.go:312-341 | storing succeeds if and only if the directory can be made and the file moved there; then the file is at its new place with its content and every other file as before |
| `CacheRuns.Perform` | internal/cache/filesystem_cache.go:88-341 | each operation of a run is a call of the class it belongs to |
| `CacheRuns.AddStores` | internal/cache/filesystem_cache.go:98-108 | a successful addition makes the version present if and only if it already was or its file could be seen |
| `CacheRuns.AddExample` | internal/cache/filesystem_cache.go:98-108 | an addition that succeeds for a file that is not there, and stores nothing |
| `VersionTracker.InMemoryTracker.Update` | internal/versiontracker/immemory_tracker.go:50-77 | the scan, append and sort leave the index as `VersionTracker.Updated` says, and empty arguments are refused |
| `VersionTracker.InMemoryTracker.LatestVersion` | internal/versiontracker/immemory_tracker.go:35-46 | the head of the list, or an error when there is none |
| `VersionTracker.InMemoryTracker.ListVersions` | internal/versiontracker/immemory_tracker.go:80-93 | the list, or an empty one |
| `VersionTracker.InMemoryTracker.HasVersion` | internal/versiontracker/immemory_tracker.go:129-145 | says whether the pair is recorded |
| `VersionTracker.InMemoryTracker.Stats` | internal/versiontracker/immemory_tracker.go:116-126 | the totals are the numbers of distinct packages and of distinct pairs |
| `VersionTracker.InMemoryTracker.ClearAll` | internal/versiontracker/immemory_tracker.go:108-113 | empties the index |
| `VersionTracker.UpdateRefinesSet` | internal/versiontracker/immemory_tracker.go:50-77 | an update keeps every list newest first and adds exactly its pair to the set of pairs |
| `VersionTracker.TrackerRefinesSet` | internal/versiontracker/immemory_tracker.go:35-113 | after any updates and clears each list is strictly descending and the pairs are those recorded since the last clear |
| `VersionTracker.OrderDoesNotMatter` | internal/versiontracker/immemory_tracker.go:50-77 | histories that recorded the same pairs leave the same index |
| `VersionTracker.PermutationsAgree` | internal/versiontracker/immemory_tracker.go:50-77 | any permutation of the same updates leaves the same index |
| `VersionTracker.LatestIsGreatest` | internal/versiontracker/immemory_tracker.go:35-46 | the latest version is the greatest recorded since the last clear |
| `PacmanRequest.ParsePackageName` | internal/server/http_server.go:499-534 | the backward search computes `PacmanRequest.PackageName` |
| `PacmanRequest.PackageNameExact` | internal/server/http_server.go:499-534 | the parser answers with a pair if and only if the name prints as that pair: a nonempty name and a digit-led version with no later digit-led segment |
| `PacmanRequest.PackageNameFails` | internal/server/http_server.go:499-534 | the parser fails exactly on the names that print as no pair |
| `PacmanRequest.PackageNameRoundTrip` | internal/server/http_server.go:499-534 | printing a pair and parsing it gives the pair back |
| `PacmanRequest.ReleaseDecides` | internal/server/http_server.go:496-498 | version and release are read together if and only if the release is not led by a digit |
| `PacmanRequest.CommentExample` | internal/server/http_server.go:498 | the example in the comment is not read as the comment says |
| `PacmanRequest.ExtensionExample` | internal/server/http_server.go:501 | a package file name with its extension spelled out |
| `PacmanRequest.AcceptedComponents` | internal/server/http_server.go:214-255 | the components of an accepted path hold no slash, and repository and file name are not empty |
| `PacmanRequest.ParseExact` | internal/server/http_server.go:214-255 | a path is read as a record if and only if its second component is `os`, the first, third and last are the record's repository, architecture and file name, there are at least three, or four for a package, and a package's file name prints its name and version |
| `PacmanRequest.PrintedIsRead` | internal/server/http_server.go:214-255 | every record of a repository file or a package can be asked for: printing it and reading the path gives it back |
| `PacmanRequest.Normalization` | internal/server/http_server.go:214-255 | printing an accepted request and parsing it again gives the same request, for every depth of path |
| `Text.TrimCuts` | internal/server/http_server.go:219 | nothing but slashes is trimmed from a path, and only at its ends |
| `PacmanRequest.FourComponentsAreNormal` | internal/server/http_server.go:214-255 | a path of four components is printed as its slash-trimmed self |
| `PacmanRequest.UpstreamPathJoins` | internal/server/http_server.go:296 | the path asked of a mirror names the same four components as the path on disk |
| `PacmanRequest.PathsAgree` | internal/server/http_server.go:265-296 | for accepted requests the mirror path, the disk path and the request determine one another |
| `Gateway.ServeMatches` | internal/server/http_server.go:730-763 | from a faithful layout only upstream content is served |
| `Gateway.OthersAct` | internal/cache/retention_manager.go:48-111 | deletions and additions happen between the actions of the handlers |
| `Gateway.StepSound` | internal/server/http_server.go:258-421 | each action keeps its handler's temporary file and its response true to upstream |
| `Gateway.StepTemps` | internal/downloader/http_downloader.go:145-149 | a handler touches no temporary file but its own |
| `Gateway.SoundAlways` | internal/server/http_server.go:258-421 | in every interleaving every file in the repository layout has the content upstream at its path |
| `Gateway.Transparency` | internal/server/http_server.go:258-412 | in every interleaving a body served for a request is the upstream content at the request's path, or a beginning of it shorter than announced |
| `HTTPServers.HTTPServer.HandlePacmanRequest` | internal/server/http_server.go:189-211 | the sequential handler leaves storage directory and response as `HTTPServers.Handled` says |
| `HTTPServers.ReadIsAnswered` | internal/server/http_server.go:193-210 | a path that is read is answered by what was read; any other is not found, and other methods are not allowed |
| `HTTPServers.MissStatuses` | internal/server/http_server.go:290-321 | the status of each failure of a miss: no fetch manager, a failed fetch, a failed store |
| `HTTPServers.HTTPServer.TryServeFromCache` | internal/server/http_server.go:277-287 | serves exactly when the file can be seen |
| `HTTPServers.HTTPServer.ServePackage` | internal/server/http_server.go:730-763 | the copy loop sends the file from its beginning, up to where the client breaks off, and failures have their status |
| `HTTPServers.HTTPServer.FetchAndServeFile` | internal/server/http_server.go:290-329 | on a miss: fetch, store, serve; each failure has its status |
| `HTTPServers.HandlerIsRun` | internal/server/http_server.go:189-412 | the sequential handler is a run of the concurrent machine |
| `HTTPServers.CacheIsInvisible` | internal/server/http_server.go:341-412 | where nothing fails, the response is that of a server without a cache, if and only if no file blocks the directory or there is nothing upstream |
| `HTTPServers.InvisibleAlways` | internal/server/http_server.go:258-412 | after every run from a storage directory without blocking files, a request that meets no failure gets the response of a server without a cache |
| `HTTPServers.BlockedExample` | internal/server/http_server.go:331-338 | a storage directory with one file in the way, from which nothing of a repository is served though it is upstream |
| `HTTPServers.ServedAgain` | internal/server/http_server.go:357-367 | what the layout holds is served from then on without a mirror, whatever requests, fetches and retention passes come in between |

## Left out

- Real HTTP transfer, checksums, timeouts and the copy fallbacks of renaming: a download and a rename are one step that succeeds or fails, and a temporary file that could be written can be closed.
- `math.Log` and the rounding of floating-point numbers: the boost is any monotone function with value zero at zero, and clocks do not run backwards below `LastUsed`.
- Wall-clock tickers: recovery ticks and enforcements are steps that may happen at any time.
- The periodic enforcement loop, which takes its lock twice, and the `Stop` of the retention manager.
- `Cleanup` of the file-system cache: it deletes top-level directories without direct `.pkg` files, which includes those of the repository layout; no frame or transparency claim covers it.
- Path components that are empty, "." or "..", and versions that hold "/": excluded by precondition wherever the storage directory is touched.
- Renaming a directory: `Add` and `PutRepoFile` are given files.
- A temporary directory inside the storage directory: temporary files are taken to lie outside it, as in the default configuration.
- Other programs that write to the storage directory, and other operations between the system calls of one `Add`.
- The server's life cycle, health, statistics and metrics handlers, the global metrics counters, the logger, the configuration loader and `main`.
- Cache managers other than `FilesystemCache`, and the fallback handlers for them.
- `FetchIfNeeded`, which only notes the time of a check and penalizes a mirror by 0.1; the placeholders `CheckForUpdates`, `LoadFromCache` and `FetchAndServe`; and `Find`.
- The order of strings is by code point, as Go's is by byte; they agree on valid UTF-8.
- Downloader.HTTPDownloader.Download: the mirror is one of the selector's, as for both callers in the source, and none was added twice, as in `main`, which makes a new mirror for each entry of the configuration.
- Downloader.HTTPDownloader.Attempt: no mirror was added twice.
- Downloader.FetchManager.FetchVersion: no mirror was added twice.
- Downloader.FetchManager.FetchClaimed: no mirror was added twice.
- Downloader.FetchManager.FetchFrom: no mirror was added twice.
- Downloader.FetchManager.SettleFetch: no mirror was added twice.
- Downloader.HTTPDownloader.DownloadFromMirror: the outcome of the transfer is a parameter.
- FilesystemCaches.FilesystemCache.PutRepoFile: the fallback from renaming to copying is left out.
- The data race on the stop channel when a pool is started again: a worker at its select waits on the channel it read last.
- DownloadPool.Pool.ProcessTask: the outcome of selecting and downloading is a parameter; `FetchProtocol` models those calls, for pool workers too.
- WorkerPool.PoolConserves: each call of `Queue` submits its own task, and delivering an outcome never blocks, as with the buffered channel that `Queue` makes.
- WorkerPool.ShutdownTerminates: a scheduler that lets live workers act is assumed; `WorkerPool.ShutdownIsBounded` bounds every schedule without a restart.
- HTTPServers.HTTPServer.FetchAndServeFile: whether `FetchVersion` succeeds is a parameter; `Downloader.FetchManager.FetchVersion` is its model.
- Gateway.Transparency: mirrors hold the same fixed content; the record of fetches in progress is left to `FetchSafety`, since a rejected fetch is a failed one here.
