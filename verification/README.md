# Verified model of osbuild-composer

osbuild-composer turns blueprints into operating system images. Clients ask for
a *compose* through one of its HTTP APIs (weldr or Koji), jobs travel through a
queue to workers, and a store on disk keeps blueprints and composes. This
project models the parts in which the order of events, wrap-around arithmetic or
a round trip decides whether the result is right, and proves for all inputs and
all runs what those parts guarantee.

| file | models |
|---|---|
| `JobQueue.dfy`, `JobQueueRuns.dfy`, `JobQueuePlans.dfy`, `QueueDisk.dfy` | the queue interface as functions on the table of jobs (`JobQueue`), the file-system queue with its channels and `dependants` index (`FsJobQueue`), how often a job is handed out over every run (`JobQueueRuns`) and when that can be twice, judged by the stored jobs alone (`JobQueuePlans`), and when the queue's directory can be read again after crashes (`QueueDisk`) |
| `Koji.dfy`, `KojiSafety.dfy`, `KojiRuns.dfy`, `KojiApi.dfy` | the Koji compose: `PostCompose`, the three worker jobs, the two statuses, every interleaving of queue steps, worker steps, cancellation and heartbeat expiry, and constructed runs for every compose |
| `Store.dfy`, `StoreV0.dfy`, `JsonDb.dfy` | the store in place, its history invariant, saving and loading, the atomic file write, `change` with its write, and whole lives of a machine with failed writes, crashes and restarts |
| `PartitionTable.dfy` | partition layout in `uint64` arithmetic (`Layout`) and on shared slices and file-system objects (`Disk`) |
| `OsbuildResult.dfy` | osbuild v2 results to v1 stages, through JSON, to Koji's RPM list |
| `OsbuildJob.dfy` | the worker's osbuild job, the state weldr shows, check-then-delete of composes |
| `Weldr.dfy`, `Lookup.dfy` | blueprint diff, package grouping, binary search, accepted distributions, freezing, OCI layer keys |
| `Strings.dfy`, `Wrappers.dfy` | byte-order of strings, sorting, decimal numbers; optional values |

Where the source changes things step by step the model does too: a method with a
loop, or a class with fields, proved against a function of the old state. The
laws are then lemmas about those functions.

## What holds only under a condition

In these places the code does not do what its documentation or its tests
suggest. Each has an exact condition, and a lemma with an input or a run on the
wrong side of it, named last.

* A worker that falls silent has its job finished with a `null` result, and
  exactly the jobs the watcher ended have one (`ExpiredExactly`). Without such
  a job all is as intended (`WithoutExpiry`). With one, `hasFailedDependency`
  may dereference a missing `OSBuildOutput`, and a compose may be shown as a
  success that was never imported, with a failed image in it
  (`FinalizePanicsExactly`, `SuccessExactly`, `SuccessfulImages`; every compose
  has such runs: `ExpiredBuildHappens`, `ExpiredBuildLooksSuccessful`,
  `SilentFinalizeHappens`, `SilentFinalizeLooksSuccessful`).
* An import carries the token of a Koji build that init began exactly when init
  did not fall silent; otherwise it goes out with an empty token
  (`ImportAfterInit`; `SilentInitImports`, for every compose).
* Koji holds every imported file under its name in all runs exactly when no file
  name is used twice; for architectures without a dot, when no two images of the
  request agree in architecture and extension (`StoredExactly`,
  `RequestIsSafeExactly`, whose proofs construct the failing run with
  `ImportHappens`).
* A job is handed out at most once exactly when all its dependencies had
  finished when it was enqueued, or it lists the one that finished last only
  once (`HandedOnceExactly`). While it still waits, it may be handed out twice
  exactly when the stored jobs can finish in an order that ends with a dependency
  it repeats (`HandedTwiceExactly`; `RepeatedDependencyStartsTwice`).
  `PostCompose` never lists a dependency twice.
* The queue can be started again exactly when no crash came during the write of
  a job and no temporary file of a failed write could not be removed. Otherwise
  such a file is listed, is no job id, and start-up fails for good
  (`RestartExactly`, `StaysDown`; `CrashStrands`).
* The state file is behind the store in memory exactly from a failed write to the
  next completed write or restart (`BehindExactly`); a change that was served in
  that time is lost in a crash (`FailedWriteLosesChange`).
* A second call on the same base table gives the same table exactly when the
  slice was reallocated or the size was not bumped (`SecondCall`;
  `SecondCallDiffers`).
* `TagBlueprint` files another commit's record under the newest commit unless
  there is only one commit (`TagRecord`; `TagLosesRecord`).
* The partition table's size is compared in sectors with an image size in bytes.
  The layout is right exactly when the image has the sectors it needs
  (`PackedExactly`; `SmallImageWraps`, with the request of the unit test), and
  minimum sizes are honoured exactly when that room is left
  (`HonouredExactly`). An image of the summed minimum sizes need not have it,
  because the sum may wrap around (`MinSizesHonoured`; `AggregateWraps`).
* A result is decoded again exactly when no stage whose type merely ends in
  `org.osbuild.rpm` or `org.osbuild.ostree.commit` has metadata
  (`PackagesConserved`; `LookAlikeFails`). Before the JSON round trip no RPM is
  found at all, because the converter stores values and the RPM list looks for
  pointers (`NothingBeforeRoundTrip`).
* OCI layers that differ come back in order exactly when there are at most nine;
  from ten on the tenth becomes the second (`IdentityExactly`; `TenthMoves`).
* A compose is shown as FINISHED although the worker reported a failure exactly
  when the build succeeded and the artifact could not be opened or uploaded
  (`ShownExactly`; `RefusedArtifactShownFinished`).

## Model

| member | source | states |
|---|---|---|
| `JobQueue.QueueContract` | internal/jobqueue/jobqueue.go:11-81 | over every run of enqueue, dequeue, finish and cancel: a started job's dependencies are finished, a finished job is never changed again, a canceled one never finishes, dependency lists stay as given |
| `JobQueue.OperateMeans` | internal/jobqueue/jobqueue.go:11-81 | exactly when each operation changes something, and then what it changes: a started, finished or canceled flag and the result of its own job, and nothing else |
| `JobQueue.CancelIsFinal` | internal/jobqueue/fsjobqueue/fsjobqueue.go:293-316 | cancelling an unfinished job changes its flag and nothing else, and in every continuation it is never started, finished or changed again |
| `FsJobQueue.NotifyCounts` | internal/jobqueue/fsjobqueue/fsjobqueue.go:278-288 | exactly how often each job is added to each channel when the dependants of a job are notified |
| `FsJobQueue.SubscribeCounts` | internal/jobqueue/fsjobqueue/fsjobqueue.go:423-427 | exactly how often a job is added to the waiting list of each dependency |
| `FsJobQueue.RegisterKeepsInv` | internal/jobqueue/fsjobqueue/fsjobqueue.go:399-430 | registering a stored job extends the queue invariant (no job that can run is missing from its channel, no waiting job from its dependencies) to that job |
| `FsJobQueue.FinishKeepsInv` | internal/jobqueue/fsjobqueue/fsjobqueue.go:245-291 | finishing a job and waking its dependants loses no job and, without repeated dependencies, queues none twice |
| `FsJobQueue.StartKeepsInv` | internal/jobqueue/fsjobqueue/fsjobqueue.go:196-233 | starting the head of a channel keeps the invariant |
| `FsJobQueue.CancelKeepsInv` | internal/jobqueue/fsjobqueue/fsjobqueue.go:293-316 | cancelling keeps the invariant although the job stays in its channel |
| `FsJobQueue.FinishSendsExactly` | internal/jobqueue/fsjobqueue/fsjobqueue.go:276-288 | a job made runnable by the end of a dependency is sent to its channel exactly as often as it lists that dependency, and any other job not at all |
| `JobQueueRuns.SentExactly` | internal/jobqueue/fsjobqueue/fsjobqueue.go:399-430 | in every run, the entries of a job received from its channel plus those still there are exactly its number of copies once its dependencies have finished, and none before |
| `JobQueueRuns.HandedOnceExactly` | internal/jobqueue/fsjobqueue/fsjobqueue.go:196-233 | a runnable job is handed out at most once in every continuation iff its dependencies had all finished when it was enqueued or it lists the last one to finish only once |
| `JobQueueRuns.ListedOnceIsEnough` | internal/jobqueue/fsjobqueue/fsjobqueue.go:399-430 | it suffices that no dependency unfinished at that time is listed twice |
| `JobQueueRuns.CanceledNotHanded` | internal/jobqueue/fsjobqueue/fsjobqueue.go:196-233 | once canceled a job is not handed out in any continuation, although it may still be in its channel |
| `JobQueuePlans.HandedTwiceExactly` | internal/jobqueue/fsjobqueue/fsjobqueue.go:399-430 | a waiting job, for instance one just enqueued, is handed out twice in some continuation iff the stored jobs have an order of finishing that completes its dependencies and ends with one it repeats |
| `QueueDisk.LoadIds` | internal/jobqueue/fsjobqueue/fsjobqueue.go:91-105 | start-up succeeds iff every listed name is a job id whose file can be read, and then has exactly these ids |
| `QueueDisk.RestartExactly` | internal/jobqueue/fsjobqueue/fsjobqueue.go:91-105 | in every behaviour, outside a write, start-up would succeed iff no crash so far came during a write and every failed write removed its temporary file |
| `QueueDisk.JobsAreWhole` | internal/jsondb/db.go:95-131 | no job file is ever half-written |
| `QueueDisk.StaysDown` | internal/jobqueue/fsjobqueue/fsjobqueue.go:91-105 | once down with a temporary file left behind, no later event brings the queue up again |
| `QueueDisk.CrashStrands` | internal/jsondb/db.go:95-131 | from any state at rest a crash right after a write has begun gets there |
| `JobQueueRuns.RepeatedDependencyStartsTwice` | internal/jobqueue/fsjobqueue/fsjobqueue.go:399-430 | a six-step run from the empty queue in which two successive receipts hand out the same job |
| `FsJobQueue.Queue.constructor` | internal/jobqueue/fsjobqueue/fsjobqueue.go:82-128 | rebuilding both indexes from the stored jobs, in any order, establishes the invariant, also when running jobs without a token are failed half-way; exactly those jobs change |
| `FsJobQueue.Queue.MaybeEnqueue` | internal/jobqueue/fsjobqueue/fsjobqueue.go:399-430 | both indexes after the call, as a function of the old ones |
| `FsJobQueue.Queue.Enqueue` | internal/jobqueue/fsjobqueue/fsjobqueue.go:130-173 | succeeds exactly when all dependencies exist, stores the new job and nothing else |
| `FsJobQueue.Queue.Dequeue` | internal/jobqueue/fsjobqueue/fsjobqueue.go:175-243 | hands out a job of a wanted type whose dependencies are finished; finds none only if no job of these types is ready; the indexes change by the receipts made |
| `FsJobQueue.Queue.FinishJob` | internal/jobqueue/fsjobqueue/fsjobqueue.go:245-291 | fails with "not exist", "canceled" or "not running" for an unknown, a canceled and any other job that is not running, changing nothing; otherwise that job is finished with the given result and no other one changes; invariant kept |
| `FsJobQueue.Queue.CancelJob` | internal/jobqueue/fsjobqueue/fsjobqueue.go:293-316 | fails with "not exist" or "not running" for an unknown and a finished job, changing nothing; otherwise that job is canceled and no other one changes; invariant kept |
| `Koji.InitJob` | cmd/osbuild-worker/jobimpl-koji-init.go:55-74 | an error text comes from a failed call alone, token and build id are those of a successful one |
| `Koji.BuildJob` | cmd/osbuild-worker/jobimpl-osbuild-koji.go:75-125 | no output exactly when init failed; otherwise whether osbuild succeeded and, if so, the hash and the size Koji answered, with the text of a failed upload; good exactly when init worked and the upload succeeded |
| `Koji.CheckBuildsMeaning` | cmd/osbuild-worker/jobimpl-koji-finalize.go:205-216 | the scan is clean iff all builds are good, and panics iff the first build that is not good has no output |
| `Koji.ExtractDynamicArgs` | cmd/osbuild-worker/jobimpl-koji-finalize.go:185-202 | init from the first dependency, build i from dependency i + 1 |
| `Koji.RunFinalize` | cmd/osbuild-worker/jobimpl-koji-finalize.go:94-181 | panics, fails or imports according to the scan, always with the token init reported; the import lists for each build its hash and size under the file name of the same position |
| `KojiApi.SplitExtension` | internal/kojiapi/server.go:228-240 | a suffix starting at the first dot that is not the leading one |
| `KojiApi.NamesCollideExactly` | internal/kojiapi/server.go:144-151 | for architectures without a dot, two file names of a request are equal iff architecture and extension both are |
| `KojiApi.RequestIsSafeExactly` | internal/kojiapi/server.go:91-152 | in every run of the posted compose every import finds its files in Koji iff no two images agree in architecture and extension |
| `KojiApi.KojiFilenames` | internal/kojiapi/server.go:91-152 | all names, each name-version-release.arch and the extension, or none if some image does not resolve |
| `KojiApi.Server.Enqueue` | internal/worker/server.go:93-107 | a new job under a fresh id, stored with its type, dependencies and arguments, and nothing else changed |
| `KojiApi.PostCompose` | internal/kojiapi/server.go:71-195 | all or nothing, nothing when the distribution is unknown or some image does not resolve: init; one build per image, depending on it, with the compose's directory and its own file name as arguments; finalize depending on init and the builds in order, with the directory and all names; no dependency repeated, old jobs untouched |
| `KojiApi.GraphIsCompose` | internal/kojiapi/server.go:154-195 | the stored dependency lists and arguments are those of the protocol below, job by job |
| `KojiSafety.StepKeepsInv` | cmd/osbuild-worker/jobimpl-koji-finalize.go:94-181 | every step of any actor keeps the protocol invariant |
| `KojiSafety.RunInv` | internal/kojiapi/server.go:154-195 | the invariant holds after every run |
| `KojiSafety.FinalizeInputs` | cmd/osbuild-worker/jobimpl-koji-finalize.go:101-104 | once finalize has started, its inputs are exactly the results the HTTP side reads |
| `KojiSafety.ImportProvenance` | cmd/osbuild-worker/jobimpl-koji-finalize.go:132-170 | in every run an import names the directory and the file names of finalize's arguments, and each image was uploaded before by the build of the same position, to the directory and under the name in that build's own arguments, which are the same ones, with the hash and the size that Koji answered to that upload |
| `KojiRuns.ExpiredExactly` | internal/worker/server.go:79-91 | a job has a null result iff at some step of the run the watcher ended it while a worker held it |
| `KojiRuns.WithoutExpiry` | internal/kojiapi/server.go:242-293 | in runs where no worker falls silent: finalize never reads a missing output, a finished compose is a success iff the import was called without error, and a success has only successful images |
| `KojiRuns.PanicMeansSilence` | cmd/osbuild-worker/jobimpl-koji-finalize.go:210-214 | finalize panics only in runs in which a build fell silent |
| `KojiRuns.ImportAfterInit` | cmd/osbuild-worker/jobimpl-koji-finalize.go:106-170 | at an import init had begun a Koji build before and the import carries its token, iff init did not fall silent; otherwise the token is empty |
| `KojiRuns.SilentInitImports` | internal/worker/server.go:79-91 | every compose has a run that imports with an empty token |
| `KojiRuns.ImportHappens` | cmd/osbuild-worker/jobimpl-koji-finalize.go:122-170 | every compose, whatever init and the uploads are answered, has a run that ends in a successful import of exactly those hashes and sizes, with the token of that init |
| `KojiSafety.FinalizeActsOnce` | cmd/osbuild-worker/jobimpl-koji-finalize.go:106-173 | Koji is told to import or to fail at most once per compose |
| `KojiSafety.FailsAfterFailure` | cmd/osbuild-worker/jobimpl-koji-finalize.go:106-120 | in every run, a Koji build is failed only with the token init reported, only after init or some build failed, and the job reports the answer of that call |
| `KojiSafety.FinalizePanicsExactly` | cmd/osbuild-worker/jobimpl-koji-finalize.go:205-216 | a missing output is read iff init looks fine and the first build that is not good was ended by the heartbeat watcher |
| `KojiSafety.SuccessExactly` | internal/kojiapi/server.go:242-269 | a reported finalize gives "success" iff the import was called without error; one ended by the watcher iff the dependencies look clean |
| `KojiSafety.ComposeStatusMeans` | internal/kojiapi/server.go:242-269 | in every run a known compose is pending iff finalize has neither finished nor been canceled, and a failure iff it was canceled or has finished without success |
| `KojiSafety.SuccessfulImages` | internal/kojiapi/server.go:271-293 | in a successful compose image i is a success iff its build was not ended by the watcher |
| `KojiSafety.ImageStatusMeans` | internal/kojiapi/server.go:271-293 | a failure if canceled or init failed; otherwise pending iff not started, building iff started and not finished, success iff finished and good, and else a failure |
| `KojiSafety.StatusesOnlyMoveForward` | internal/kojiapi/server.go:242-293 | "success" and "failure" of the compose and of every image never change again |
| `KojiSafety.DoneStays` | internal/jobqueue/jobqueue.go:46-61 | a finished job of the protocol is never changed by any later steps |
| `KojiSafety.ReadsNeedNotBeAtomic` | internal/kojiapi/server.go:296-352 | reading the dependencies any number of steps after finalize shows the status of the first read |
| `KojiSafety.ImportedFilesAreStored` | cmd/osbuild-worker/jobimpl-osbuild-koji.go:107-116 | at one import Koji holds every imported file under its name iff images sharing a name are the same file |
| `KojiRuns.StoredExactly` | cmd/osbuild-worker/jobimpl-osbuild-koji.go:107-116 | in all runs of a compose all imports find their files iff no file name is used twice |
| `KojiRuns.SilentFinalizeLooksSuccessful` | internal/worker/server.go:79-91 | whenever finalize is ready on clean dependencies, a worker falling silent makes the compose a success with no import |
| `KojiRuns.SilentFinalizeHappens` | internal/worker/server.go:79-91 | every compose has a run that gets there |
| `KojiRuns.ExpiredBuildLooksSuccessful` | internal/worker/server.go:79-91 | after a silent build, finalize panics and expires too: a successful compose with a failed image and no import |
| `KojiRuns.ExpiredBuildHappens` | internal/worker/server.go:79-91 | every compose has, for each of its builds, a run that gets there with that build silent |
| `Store.Store.Push` | internal/store/store.go:195-232 | the whole store and the error after a push, including the version bump |
| `StoreHistory.PushOutcome` | internal/store/store.go:195-207 | a push fails, changing nothing, iff no commit id could be drawn or the version, 0.0.0 when empty, is not valid |
| `StoreHistory.PushShows` | internal/store/store.go:137-232 | after a push clients see the committed blueprint, not a workspace one, with the pushed name and content; its version is the pushed one, bumped iff the old blueprint had the same; the history gains one commit with the blueprint as pushed |
| `StoreHistory.PushKeepsOthers` | internal/store/store.go:195-232 | other names show what they showed before, with the same history |
| `StoreHistory.WorkspaceHides` | internal/store/store.go:137-151 | a workspace entry hides the committed blueprint of its name and nothing else; taking it back shows that again, and undoes the push when there was no entry before |
| `StoreHistory.DeleteKeepsHistory` | internal/store/store.go:250-259 | a deletion hides the blueprint, keeps every name's commits and changes, and leaves other blueprints alone; it fails iff none was committed |
| `StoreHistory.RefusalsMean` | internal/store/store.go:234-310 | when a workspace push, a workspace deletion and a tag fail; then they change nothing, and neither does a tag whose newest commit has a revision |
| `StoreHistory.PushContinuesHistory` | internal/store/store.go:195-232 | a push after a deletion continues the old list of commits |
| `Store.Store.Tag` | internal/store/store.go:275-310 | the backward loop stores the record it visited last, with the next revision |
| `StoreHistory.ComposeUndone` | internal/store/store.go:336-428 | a pushed compose is found as it was pushed, waiting, and a test compose without a job and in the state given; it can be deleted without a trace when its id was free, a real one never replaces another, and no other compose changes |
| `StoreHistory.ComposeStays` | internal/store/store.go:336-428 | over every run a compose stays as it was made until it is deleted or replaced by a test compose |
| `StoreHistory.SourceStored` | internal/store/store.go:431-460 | a pushed source is found under its key, a deleted one is not, nothing else changes |
| `StoreHistory.HistoryAlwaysOk` | internal/store/store.go:195-310 | every run keeps: commits and changes have the same names, lists are duplicate-free and list exactly the keys of the changes, committed blueprints have commits, tagged commits carry revisions 1, 2, ... in list order |
| `StoreHistory.CommitsOnlyAppended` | internal/store/store.go:195-310 | over every run each commit list is a prefix of the later one |
| `StoreHistory.RevisionsAreCounted` | internal/store/store.go:275-310 | a revision is the number of tagged commits up to it |
| `StoreHistory.PushKeepsHistory` | internal/store/store.go:208-222 | a fresh commit keeps one blueprint's history good |
| `StoreHistory.TagKeepsHistory` | internal/store/store.go:287-307 | tagging gives the newest commit the number of tags plus one; the record it gets is its own iff there is one commit |
| `StoreHistory.LastVisitedMeaning` | internal/store/store.go:294-304 | the loop stops at the last tagged commit, whose revision is the number of tags, or at the oldest commit |
| `StoreHistory.TagRecord` | internal/store/store.go:275-310 | the same for the tag operation on a whole store |
| `StoreHistory.TagLosesRecord` | internal/store/store.go:297-307 | from the empty store, two pushes and a tag file the first commit's record under the second commit |
| `StoreV0.CompatInjective` | internal/store/json.go:342-369 | no two image types share a compat name |
| `StoreV0.ComposeRoundTrip` | internal/store/json.go:116-164 | a compose comes back, with its queue status normalised, iff its image type is one of the host's |
| `StoreV0.NormaliseMeans` | internal/store/json.go:116-193 | what a save and a load lose: blueprints, workspace, sources and commit lists stay, a change loses the blueprint it carried, and a build that has not finished has failed |
| `StoreV0.LoadAfterSave` | internal/store/json.go:237-340 | loading what was saved gives the normalised store and nothing else, iff all image types are the host's |
| `StoreV0.NormalisedIsLoaded` | internal/store/json.go:237-246 | that outcome exists |
| `StoreV0.NormaliseIdempotent` | internal/store/json.go:116-193 | normalising twice is normalising once |
| `StoreV0.NormaliseKeepsHistory` | internal/store/json.go:176-235 | the history facts survive a load |
| `StoreV0.ImageTypeFromCompatString` | internal/store/json.go:379-390 | the result does not depend on the order of the map |
| `StoreV0.NewCommitsFromV0` | internal/store/json.go:195-235 | stored lists are kept; missing ones list all changes by timestamp |
| `JsonDb.ActIsAtomic` | internal/jsondb/db.go:95-131 | no single file operation makes the target unreadable; only the rename changes it, to the whole new document |
| `JsonDb.Database.WriteAtomically` | internal/jsondb/db.go:95-131 | fails iff some operation does, and then the target read the same in every directory passed through; otherwise only the last one differs |
| `StoreDisk.NextKeepsInv` | internal/store/store.go:108-122 | every file operation, failure, crash and restart keeps the disk invariant |
| `StoreDisk.CrashSafe` | internal/store/store.go:72-122 | at every moment of every life the state file is whole and loads exactly as the store saved last, normalised; without failed writes that is the store before or after the change under way |
| `StoreDisk.RestartAfterCrash` | internal/store/store.go:72-90 | a crash anywhere and a restart give that store |
| `StoreDisk.RenameCommits` | internal/jsondb/db.go:124-130 | the rename leaves the complete document of the store after the change |
| `StoreDisk.OnlyRenameChangesDisk` | internal/jsondb/db.go:95-131 | nothing else changes what the state file reads as |
| `StoreDisk.BehindExactly` | internal/store/store.go:108-122 | the disk is behind iff a write failed and no write was completed nor the store restarted since |
| `StoreDisk.WriteHappens` | internal/store/store.go:108-122 | from any state at rest any change has a behaviour that writes it down completely |
| `StoreDisk.FailedWriteHappens` | internal/store/store.go:114-119 | from any state at rest any change has a behaviour in which memory has it and the disk has not |
| `StoreDisk.FailedWriteLosesChange` | internal/store/store.go:114-119 | a source served after a failed write is gone after a crash and a restart |
| `PersistentStore.Persistent.Change` | internal/store/store.go:108-122 | memory is the result of the operation in any case; it panics iff some file operation fails, and the state file is the complete new document or reads as before throughout |
| `StoreDisk.HistoryAcrossRestarts` | internal/store/store.go:72-122 | the history facts hold in memory across failed writes, crashes and restarts |
| `Layout.PackedExactly` | internal/disk/customizations.go:39-64 | others packed from sector 2048 in table order, root last and ending 100 sectors before the end, iff the image has that many sectors |
| `Layout.PackedDisjoint` | internal/disk/disk.go:176-189 | packed partitions are pairwise disjoint |
| `Layout.PackedRootLast` | internal/disk/disk.go:176-189 | all others end before the root starts, nothing starts before sector 2048, and the root ends 100 sectors before the end of the image |
| `Layout.PackedContiguous` | internal/disk/disk.go:176-189 | no gap between consecutive non-root partitions |
| `Layout.CreatePacks` | internal/disk/customizations.go:26-65 | a large enough request gives a right layout, size bump or not |
| `Layout.SmallImageWraps` | internal/disk/customizations.go:46-49 | the request of the unit test wraps around |
| `Layout.FilesystemsMinSize` | internal/blueprint/customizations.go:257-271 | the sum of the minimum sizes modulo 2^64, rounded up; if it is representable, a multiple of 512 less than 512 bytes above the sum |
| `Layout.HonouredExactly` | internal/disk/customizations.go:39-62 | for every request, the layout is right and the root holds the bytes asked for "/" iff that room is left; custom partitions serve their mount points in order, each less than a sector short |
| `Layout.MinSizesHonoured` | internal/blueprint/customizations.go:257-271 | an image of the aggregated minimum plus the base table's needs has that room, if the aggregate does not wrap |
| `Layout.AggregateWraps` | internal/blueprint/customizations.go:262-270 | two mount points of 2^63 bytes aggregate to zero, and an image of that minimum plus the base table's needs gets a wrong layout |
| `Layout.TooMuchAsked` | internal/blueprint/customizations.go:257-271 | beyond 2^64 no image size honours the request |
| `Layout.SecondCall` | internal/disk/customizations.go:39-64 | a second call on the mutated base table gives the same table iff the slice was reallocated or the size was not bumped |
| `Layout.SecondCallDiffers` | internal/disk/customizations.go:39-64 | a base root of 2000000 sectors: the first size is 2000000, the second 1099776 |
| `Disk.Append` | internal/disk/customizations.go:41-44 | in place while there is capacity, otherwise a copy that leaves the old array alone |
| `Disk.CreatePartition` | internal/disk/customizations.go:67-88 | a fresh xfs file system with its own UUID at the mount point, and for GPT a partition type and a further UUID |
| `Disk.GetPartitionTableSize` | internal/disk/disk.go:195-201 | the wrapping sum of the sizes |
| `Disk.UpdateStarts` | internal/disk/disk.go:176-189 | every partition at its running start, the root at the end |
| `Disk.FindMount` | internal/disk/disk.go:109-138 | the first partition mounted there |
| `Disk.CreatePartitionTable` | internal/disk/customizations.go:26-65 | the result is the layout above; the caller's table shows it iff the slice was not reallocated; the boot file system, if there is one, gets the first UUID drawn and the shared root file system the last |
| `Disk.CreateTwice` | internal/disk/customizations.go:26-65 | two calls on one base table agree iff the backing array was full or nothing was bumped |
| `OsbuildResult.FromV2` | internal/osbuild1/result.go:199-252 | whatever order the log map is visited in, the stages are the pipelines by increasing name |
| `OsbuildResult.StageCopied` | internal/osbuild1/result.go:234-251 | each stage stands at its place with its own success and output, named pipeline:index-type |
| `OsbuildResult.StageNamesIdentify` | internal/osbuild1/result.go:234-251 | without colons in pipeline names a stage name determines pipeline, position and type |
| `OsbuildResult.StageNamesCollide` | internal/osbuild1/result.go:234-251 | with a colon it does not |
| `OsbuildResult.NamesDistinct` | internal/osbuild1/result.go:199-252 | all stage names of a flattened result are distinct |
| `OsbuildResult.DecodedIsWellTyped` | internal/osbuild2/result.go:55-81 | v2 metadata is typed by the stage type, and holds the packages, the commit or the text that was encoded |
| `OsbuildResult.StageRoundTrip` | internal/osbuild1/result.go:53-84 | a stage is decoded again iff it is no look-alike with metadata, and then has exactly its packages |
| `OsbuildResult.CommitConserved` | internal/osbuild1/result.go:53-84 | the commit of an `org.osbuild.ostree.commit` stage is found again |
| `OsbuildResult.PackagesConserved` | internal/rpmmd/metadata.go:18-40 | the result is decoded again iff no look-alike stage has metadata, and then the RPM list has one entry for each package attached to an `org.osbuild.rpm` stage, by pipeline and stage order: its name, epoch, version, release, arch and md5 signature, and the GPG, else the PGP signature, else none |
| `OsbuildResult.LookAlikeFails` | internal/osbuild1/result.go:53-84 | a result with one stage of type `x.org.osbuild.rpm` and any metadata is not decoded |
| `OsbuildResult.NothingBeforeRoundTrip` | internal/osbuild1/result.go:254-273 | before the JSON round trip the RPM list is empty |
| `OsbuildResult.OSBuildStagesToRPMs` | internal/rpmmd/metadata.go:18-40 | one entry, with the same fields, for each package of all pointer metadata, in order |
| `OsbuildJob.Run` | cmd/osbuild-worker/jobimpl-osbuild.go:51-502 | the reported result over all branches, whose meaning the next rows give |
| `OsbuildJob.ReportedSuccess` | cmd/osbuild-worker/jobimpl-osbuild.go:51-502 | success iff built, artifact done and target done; errors iff only the target failed |
| `OsbuildJob.ReportedMeans` | cmd/osbuild-worker/jobimpl-osbuild.go:51-502 | the other fields: output, upload status, the one target result and the one target error, by what happened |
| `OsbuildJob.ShownExactly` | internal/worker/server.go:126-132 | shown as success iff built without a target error, which exceeds the worker's flag by exactly the builds whose artifact was not done |
| `OsbuildJob.RefusedArtifactShownFinished` | internal/worker/server.go:126-132 | a refused artifact is shown as finished |
| `OsbuildJob.JobStateMeans` | internal/weldr/api.go:292-310 | failed if canceled; otherwise waiting iff not started, running iff started and not finished, finished iff finished with a result shown as success |
| `OsbuildJob.StateMeans` | internal/weldr/api.go:315-357 | a compose without a job shows its stored status, any other one the state of its job |
| `OsbuildJob.LoadKeepsState` | internal/weldr/api.go:315-357 | loading keeps a compose's state iff it has a job or a final stored status |
| `OsbuildJob.RestartKeepsStates` | internal/weldr/api.go:315-357 | for all stores reached with real job ids a restart changes no compose's state |
| `OsbuildJob.RunInv` | internal/weldr/api.go:2408-2433 | invariant of every interleaving of pushes, workers, expiry, cancellation, checks and deletes |
| `OsbuildJob.OnlyOverIsDeleted` | internal/weldr/api.go:2408-2433 | every deleted compose's job has finished or was canceled |
| `OsbuildJob.OverWhenDeleted` | internal/weldr/api.go:2408-2433 | it had at the moment of the deletion |
| `OsbuildJob.CheckThenDelete` | internal/weldr/api.go:2408-2433 | a check and a delete remove a compose shown as finished or failed, and leave everything as it was for one shown as waiting or running, unless it was found final before |
| `OsbuildJob.FinishedMeans` | internal/weldr/api.go:292-310 | a compose shown FINISHED got its result from an update of its own job in the run; in the environment of that update the build succeeded without a target error, and the artifact was accepted iff the worker reported success itself |
| `BlueprintDiff.Compute` | internal/weldr/api.go:1750-1776 | patching the old packages with the diff gives the new ones; with distinct new names every entry is a real difference and no name repeats |
| `BlueprintDiff.UnlistedIsUnchanged` | internal/weldr/api.go:1750-1776 | a name is listed iff it changed |
| `PackageInfos.ToPackageInfos` | internal/rpmmd/repository.go:536-556 | the loop with its index map is plain grouping |
| `PackageInfos.FirstsMeaning` | internal/rpmmd/repository.go:536-556 | entry names are distinct and cover all names |
| `PackageInfos.NthFirst` | internal/rpmmd/repository.go:536-556 | entries come in the order of first appearance, each from the first package of its name |
| `PackageInfos.NthBuild` | internal/rpmmd/repository.go:536-556 | the builds of a name are in input order |
| `PackageInfos.NothingLost` | internal/rpmmd/repository.go:536-556 | there are as many builds as packages |
| `Search.IsStringInSortedSlice` | internal/common/helpers.go:32-38 | binary search is membership |
| `Distros.Registry.AddAll` | internal/distroregistry/distroregistry.go:43-56 | succeeds iff names are distinct, and then holds exactly the given distributions |
| `Distros.Registry.List` | internal/distroregistry/distroregistry.go:103-110 | the registered names, sorted, each once |
| `Distros.ValidDistros` | internal/weldr/api.go:104-117 | sorted, and exactly the registered names with repositories for the architecture |
| `Distros.GetDistro` | internal/weldr/api.go:453-458 | accepts exactly those names and returns the distribution of that name |
| `Freeze.Lookup` | internal/weldr/api.go:1545-1562 | binary search finds what plain lookup finds |
| `Freeze.FindUnique` | internal/weldr/api.go:1545-1562 | with unique names that is the dependency of that name |
| `Freeze.SetPkgEVRA` | internal/weldr/api.go:1545-1562 | in place: packages before the first missing one carry their dependency's [epoch:]version-release.arch, the rest is untouched |
| `OciArchive.Marshal` | internal/osbuild2/oci_archive_stage.go:66-83 | layer i is found under "layer." and its number counted from one, the base under "base" iff there is one |
| `OciArchive.Unmarshal` | internal/osbuild2/oci_archive_stage.go:86-139 | accepts iff a base is present and all other keys match; layers come in the string order of their keys |
| `OciArchive.MatchesExamples` | internal/osbuild2/oci_archive_stage.go:86-101 | the key pattern is not anchored and wants a first digit other than zero |
| `OciArchive.PrintAndParse` | internal/osbuild2/oci_archive_stage.go:66-139 | parsing what was printed succeeds iff there is a base |
| `OciArchive.RoundTripPermutes` | internal/osbuild2/oci_archive_stage.go:66-139 | for any number of layers the round trip is a permutation |
| `OciArchive.IdentityUpToNine` | internal/osbuild2/oci_archive_stage.go:66-139 | up to nine layers it is the identity |
| `OciArchive.TenthMoves` | internal/osbuild2/oci_archive_stage.go:86-101 | from ten layers on the tenth comes second |
| `OciArchive.IdentityExactly` | internal/osbuild2/oci_archive_stage.go:66-139 | for distinct layers it is the identity iff there are at most nine |

## Assumptions

Commit ids and UUIDs are fresh when drawn. A rename is atomic and completed
writes are durable. Foreign calls (Koji, osbuild, depsolving, uploads) either
succeed with a value or fail with a non-empty text. Sorting is by its
specification: some sorted permutation. The semantic-version library is a
parameter: which strings it accepts and how it bumps one. The UUID library
prints 36 characters and accepts texts of 32, 36, 38 or 45 characters only.

## Left out

- `QueueDisk.RestartExactly`: one write at a time, as under the queue lock; jobs failed during start-up are not written in this model.
- `JobQueueRuns.HandedOnceExactly`: hand-outs are counted within one life of the process; a restart rebuilds the channels.
- `FsJobQueue.Queue.Dequeue`: taking an id from a channel and marking the job as started are one step, as are all operations under the queue lock; tokens, heartbeats, the bound of 100 on a channel, closing empty channels and waiting for a context are not modelled, and blocking is the result "none ready".
- `Koji.RunFinalize`: an output without a build pipeline would be another nil dereference; results converted from osbuild v2 always carry one (internal/osbuild1/result.go:202), and the model assumes it. Build roots, architectures and times are not part of the import.
- `KojiSafety.RunInv`: one compose at a time; other composes share only the queue, whose jobs do not interact.
- `StoreHistory.ComposeUndone`: the source looks for an existing id before it takes the lock (internal/store/store.go:345-354), so two calls with one id could both pass; here the look and the insertion are one step.
- `KojiApi.PostCompose`: the wait for init and the answer to the client are not modelled.
- `OsbuildJob.Run`: each upload target is one call that succeeds or fails; the steps inside a target are not told apart.
- `Disk.CreatePartitionTable`: which of the UUIDs in between goes to which new partition is stated only by `Disk.CreatePartition`, for one partition.
- `StoreV0.NewCommitsFromV0`: sorting by a comparator that is not strict is taken as sorting by timestamp in some order.
- `Layout.MinSizesHonoured`: one direction; `Layout.HonouredExactly` has the exact condition.
- The database-backed queue, the worker server's HTTP side and artifact storage are not part of this model.
- HTTP routing, JSON and TOML text, authentication, configuration and logging are plumbing around the modelled functions.
- Blueprint contents are opaque, and copying them is the identity; nil and empty slices are not told apart.
- Sources are pushed and deleted by key only; deleting by name and the listings are not part of this model.
- Strings are compared by character code, which is byte order for ASCII names.
- Stage option structures, distribution definitions and manifest generation are field copying without a law of their own.
