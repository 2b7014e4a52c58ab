# Release control plane: models and proofs

This project models the parts of a release control plane whose correctness is decided by code rather than by
configuration, and proves what they promise. One module models one concern; the modules of a concern build on each other.

- **Byte-preserving catalog edits.** `Json` is the strict JSON grammar of the decoder (RFC 8259, sections 2 to 7) and
  `JsonFacts`, `JsonEdit` and `JsonLayout` say what a splice into text does to its meaning. `FieldScan` and `FieldSetting`
  are the position scanner and the field splice, `Utf8` is the encoding (RFC 3629, section 3), and `ExecutorPin`,
  `CatalogText`, `PinPlan`, `PinBatch`, `PinRun`, `PinSource`, `PinOutcome`, `PinGithub`, `PinArtemis` and
  `PinReconnections` are the three programs that pin executors. The headline is that their defensive checks can never fire.
- **Releases that may fail anywhere.** `ReleaseService` and `ReleaseJob` are the release executor. A script (`Faults`),
  which may be any, says of each cloud command whether it succeeds or fails before or after it took effect; the contracts
  count the commands that failed, and a ghost trace records the cloud after every command. `CatalogActivation` is an
  activation by compare-and-swap among concurrent writers.
- **A capped longest-first schedule.** `TestSchedule`, with its balance bound, and `Lexical`, the order of strings.
- **Crash-tolerant protocols.** `BuildSubmission` (with `StateFiles`, the text of its files), `BuildSweep`, `BuildLedger`,
  `CostCache`, `CostAlerts` and `WorkerDatabases`. The concurrent ones are state machines whose runs interleave between any
  two statements.
- **Arithmetic over time and coverage.** `BuildMonths`, `BuildUsage` and `GoCoverage`.

Hashes, regular expressions, readiness probes and remote calls are parameters or steps with any outcome. Exceptions are
results: `Outcome`, `Exit`, `JobExit`, `Option`. A method that may fail early still states everything its earlier commands
may have changed.

Findings about the code itself:

- A `CREATE DATABASE` that fails after it took effect leaves a database that is not listed, so it is never dropped:
  `WorkerDatabases.LeakingRun` is such a run, and by `WorkerDatabases.Run` the list is complete exactly when this never
  happened. A `DROP DATABASE` that fails after it took effect leaves a name that can never be dropped again, so every later
  `close` without arguments raises (`WorkerDatabases.Pool.Close`). An allocation that succeeds never leaks.
- `operate` copies the build id of a mirror into a missing state file before it describes that build
  (`scripts/ops/cloud-build-fallback/control.py:199-204`). `BuildSubmission.AdoptsUnverified` is such a run;
  `BuildSubmission.MisboundIsCopied` says that a file binds the build of another request exactly when it is such a copy.
  What a run binds and returns is verified in any case (`BuildSubmission.BindsUniquely`, `BuildSubmission.ReturnsItsBuild`).
- The inventory sweep looks back a day, so a build that is listed more than a day after its creation can be missed
  (`BuildSweep.LateIsMissed`); `BuildSweep.ExactLateness` gives the bound.
- `deploy_job` leaves the schedules paused after a verified restoration when the revocation of the new commit fails: the
  exit `Unrevoked` of `ReleaseJob.Job.DeployJob` says so, apart from `Unverified`, where the earlier definition is not known
  to be back.

## Model

| member | source | states |
|---|---|---|
| `JsonEdit.DumpsReads` | `scripts/pin_reconnections_catalog.py:67` | a name written by json.dumps reads back as that name, whatever text follows it |
| `JsonFacts.ValueLocal` | `scripts/pin_reconnections_catalog.py:50-51` | what a piece of text means as a value depends only on the text of that value and on a delimiter after it |
| `FieldScan.SkipFrom` | `scripts/pin_reconnections_catalog.py:30-33` | the position after the white space, found by the loop |
| `FieldScan.OneMember` | `scripts/pin_reconnections_catalog.py:43-57` | one pass of the member loop: the key, the span of its value and the separator, or a failure exactly where the grammar or key uniqueness fails |
| `FieldScan.ObjectFields` | `scripts/pin_reconnections_catalog.py:36-58` | on every text the loop yields exactly the spans the grammar (with a tolerated trailing comma) assigns to the members, and fails exactly when there is no such object |
| `FieldScan.ScanLaid` | `scripts/pin_reconnections_catalog.py:36-58` | on text the strict decoder accepts, wherever it stands in a document, the scanner finds exactly the members the decoder sees |
| `FieldScan.MaxEndIsLast` | `scripts/pin_reconnections_catalog.py:66` | the maximum span end is the end of the last member |
| `FieldScan.SetFieldLaid` | `scripts/pin_reconnections_catalog.py:61-73` | set_field is one splice strictly inside the braces; the members that result are the old ones with one replaced, appended, or filled in |
| `FieldSetting.SetFieldExact` | `scripts/pin_reconnections_catalog.py:71-73` | for the text of an object: the result is the text of the same object with exactly that name rebound |
| `FieldSetting.SetFieldDecodes` | `scripts/pin_reconnections_catalog.py:61-73` | for any document that decodes to an object: the result decodes to the same object with exactly `name` rebound to the literal's value, and only the spliced range differs |
| `Utf8.DecodeEncode` | `scripts/pin_github_defaults_catalog.py:152` | decoding undoes encoding |
| `Utf8.EncodeDecode` | `scripts/pin_github_defaults_catalog.py:71` | bytes the decoder accepts are the encoding of the text it returns |
| `Utf8.EncodeConcat` | `scripts/pin_github_defaults_catalog.py:60` | encoding is a homomorphism over concatenation, so an encoded prefix length is a byte offset |
| `Utf8.ReplaySplice` | `scripts/pin_github_defaults_catalog.py:143-151` | replacing the recorded bytes at the recorded offset is the text splice, and the old bytes are found there |
| `ExecutorPin.PinEntry` | `scripts/pin_github_defaults_catalog.py:43-63` | the edit of one executor lies strictly inside the entry and pins exactly that executor, creating its block when it is missing |
| `ExecutorPin.EntryStable` | `scripts/pin_github_defaults_catalog.py:43-63` | the release and deployment edits of one entry never touch, as long as one of the blocks exists, and applying the later one leaves the earlier one right |
| `CatalogText.CatalogOf` | `scripts/pin_artemis_release_catalog.py:31-45` | on a decoded catalog the spans are ordered, disjoint, and the text of each entry means its row |
| `CatalogText.ReplaceRow` | `scripts/pin_artemis_release_catalog.py:31-45` | replacing one entry's text gives the catalog with that row replaced, later entries moved and earlier ones in place |
| `PinPlan.ApplyTarget` | `scripts/pin_github_defaults_catalog.py:43-63` | one pin applied to a catalog's text gives the catalog with exactly that executor pinned, inside its entry |
| `PinPlan.Stable` | `scripts/pin_github_defaults_catalog.py:126-151` | edits of two different targets never touch, and applying the later one first leaves the earlier one as computed on the original text |
| `PinBatch.PinOneMore` | `scripts/pin_github_defaults_catalog.py:132-134` | pinning one more target gives the rows of the larger set of targets, whatever the order |
| `PinBatch.SortedKeeps` | `scripts/pin_github_defaults_catalog.py:141` | sorting keeps the edits, orders them by descending offset and keeps one per target |
| `PinBatch.ApplyFirst` | `scripts/pin_github_defaults_catalog.py:143-151` | the first pending edit finds its old bytes, and the rest stays pending on the text it leaves |
| `PinBatch.OutsideKept` | `scripts/pin_artemis_release_catalog.py:48-55` | an edit inside an entry leaves what lies outside the selected entries unchanged |
| `PinRun.ReadEntrySpans` | `scripts/pin_artemis_release_catalog.py:31-45` | on a decoded catalog the loop never raises and finds exactly the entries |
| `PinRun.OutsideEntries` | `scripts/pin_artemis_release_catalog.py:48-55` | the loop returns the encoded text with the selected entries cut out |
| `PinRun.PlanOne` | `scripts/pin_github_defaults_catalog.py:128-134` | one pass of the planning loops records the edit of one executor on the original text and pins it in the expected catalog |
| `PinRun.ApplyStep` | `scripts/pin_github_defaults_catalog.py:143-151` | one step of the apply loop keeps: the text is the catalog with the targets done so far pinned, the remaining edits are still right, outside bytes are unchanged |
| `PinRun.ApplyEdits` | `scripts/pin_github_defaults_catalog.py:142-151` | the old-bytes check of the apply loop never fails |
| `PinRun.PlanApart` | `scripts/pin_github_defaults_catalog.py:126-141` | the planned edits do not touch in the original bytes |
| `PinRun.ReplayApart` | `scripts/pin_github_defaults_catalog.py:143-151` | applying such edits in descending order equals replacing all of them at once |
| `PinRun.OneResult` | `scripts/pin_github_defaults_catalog.py:126-158` | the report and the candidate depend on the source and the wanted executors alone, not on the order of set iteration |
| `PinRun.ApplyAndCheck` | `scripts/pin_github_defaults_catalog.py:141-158` | none of the checks after the edits (old bytes, decoding, meaning, outside bytes) can fail, and the result is exactly the pinned catalog |
| `PinSource.CheckNames` | `scripts/pin_github_defaults_catalog.py:76-82` | the loop accepts exactly rows that all have a name of their own |
| `PinSource.ReadCatalog` | `scripts/pin_github_defaults_catalog.py:71-75` | the bytes are refused exactly when they do not decode to an object with a list of services |
| `PinGithub.EditCount` | `scripts/pin_github_defaults_catalog.py:135-140` | the number of planned edits of a block is the number of reviewed services outside that block's table |
| `PinGithub.CheckRows` | `scripts/pin_github_defaults_catalog.py:76-122` | the row guards accept exactly the reviewed state of every row |
| `PinGithub.PlanPins` | `scripts/pin_github_defaults_catalog.py:123-134` | the planning loops, in any order, plan exactly one edit for every executor still to be pinned |
| `PinGithub.Prepare` | `scripts/pin_github_defaults_catalog.py:66-159` | refused exactly when size, digest, decoding or review fail; otherwise every row of the candidate is the old row with both executors the new one if its name is reviewed and the old row if not, there is one edit for each executor that was missing, nothing beside the rows changes, and no check fires |
| `PinArtemis.CheckRows` | `scripts/pin_artemis_release_catalog.py:68-96` | the row guards accept exactly the reviewed state of every row |
| `PinArtemis.Prepare` | `scripts/pin_artemis_release_catalog.py:58-155` | refused exactly when size, digest, decoding or review fail; otherwise every row of the candidate is the old row with the release executor the new one if its name is reviewed and the old row if not, there is one edit for each reviewed name, nothing beside the rows changes, and no check fires |
| `PinReconnections.StageReplays` | `scripts/pin_reconnections_catalog.py:141-150` | an edit recorded relative to the entry, replayed on the bytes of the text it was recorded in, replaces the entry |
| `PinReconnections.PinStage` | `scripts/pin_reconnections_catalog.py:152-177` | setting a whole block to its edited text is the same as the recorded edit in place, and pins exactly that executor |
| `PinReconnections.FindTarget` | `scripts/pin_reconnections_catalog.py:85-120` | the guards find the one reviewed target row, or there is none |
| `PinReconnections.PinBoth` | `scripts/pin_reconnections_catalog.py:137-179` | the two recorded edits, replayed in order on the raw bytes, give exactly the candidate, although the second offset is taken in the intermediate text |
| `PinReconnections.Prepare` | `scripts/pin_reconnections_catalog.py:76-204` | refused exactly when digest, size, decoding or review fail; otherwise the one target row of the candidate has both executors the new one and every other row is the old one, everything around the entry is byte-identical, and no check fires |
| `ReleaseService.Cloud.StageCandidate` | `docker/release-executor/release_executor.py:1497-1551` | whatever others do to the traffic meanwhile, a prepared continuation describes the production that served when it was looked at last; no release command is issued |
| `ReleaseService.Cloud.AuthorizeAll` | `docker/release-executor/release_executor.py:1703-1706` | after the loop everything the previous revisions need is authorized, and every state on the way is safe |
| `ReleaseService.Cloud.RetireAll` | `docker/release-executor/release_executor.py:1681-1685` | exactly the commits the previous revisions needed are retired, the released one excepted, and every state on the way is safe |
| `ReleaseService.Cloud.TryRelease` | `docker/release-executor/release_executor.py:1662-1688` | before the promotion traffic is untouched; every state serves the previous traffic or the candidate, and is safe; it succeeds exactly when no command fails, and then the candidate has all traffic, its checks passed before and after, and exactly the grants of the previous revisions are gone |
| `ReleaseService.Cloud.Restore` | `docker/release-executor/release_executor.py:1702-1715` | it succeeds exactly when none of its own commands fails, and then the previous traffic is back, what it needs is authorized, and the new commit is not unless a previous revision runs it; every state is safe and no other grant is withdrawn |
| `ReleaseService.Cloud.ReleaseOrRestore` | `docker/release-executor/release_executor.py:1662-1727` | the exit contract of the try statement over its whole trace: returning means that no command failed, automatic rollback that one did, an exception past the promotion that another failed on the way back; without failures it returns |
| `ReleaseService.Cloud.PromoteCandidate` | `docker/release-executor/release_executor.py:1635-1727` | with any command failing before or after its effect, every revision that serves under runtime-v1 is authorized in every state; return means traffic exactly {candidate: 100} after all checks, automatic rollback exactly the previous traffic after one failed command, an exception before promotion untouched traffic, and one past it takes a second failed command; nothing happens unless production is what the continuation says |
| `ReleaseService.Cloud.DeployRuntime` | `docker/release-executor/release_executor.py:1730-1808` | the same for an independent runtime deployed in one go |
| `ReleaseService.Cloud.RollbackRuntime` | `docker/release-executor/release_executor.py:1811-1836` | every state is safe; it succeeds exactly when no command fails and the target is scoped; one failed command leaves the old traffic, and only a second one can leave the target |
| `ReleaseService.Cloud.Deploy` | `docker/release-executor/release_executor.py:1910-1988` | without a recovery hook: return means {candidate: 100} and no failed command, automatic rollback the snapshot after one, an exception before promotion untouched traffic, and one past it takes a second failure; without failures it returns |
| `ReleaseJob.Job.PauseSchedules` | `docker/release-executor/release_executor.py:1866-1877` | success means exactly the running schedules are paused; a failure whose resumptions succeed leaves the schedules as they were |
| `ReleaseJob.Job.ResumeSchedules` | `docker/release-executor/release_executor.py:1880-1882` | schedules are resumed only while the definition is a finished one |
| `ReleaseJob.Job.TryDeploy` | `docker/release-executor/release_executor.py:2167-2225` | the definition that is staged, read back and executed has the new image and commit and can only check; business work needs an authorized commit in every state; success takes exactly the case that no command fails, and leaves exactly the grants it should |
| `ReleaseJob.Job.RestoreJob` | `docker/release-executor/release_executor.py:2231-2245` | it succeeds exactly when none of its commands fails, and then the earlier definition was read back and the new commit is revoked; a restored definition whose new commit could not be revoked is told apart |
| `ReleaseJob.Job.DeployJob` | `docker/release-executor/release_executor.py:2146-2251` | in every state, while the definition is neither the original nor the promoted one, every schedule that was running is paused; done, which is the exit exactly when no command fails for an immutable image and an approved command, means the new image and commit with the earlier arguments after the staged definition was read and executed; rolled back means the earlier one, read back after one failure; the schedules stay paused only after a second failure |
| `ReleaseJob.Job.RollbackJob` | `docker/release-executor/release_executor.py:2254-2306` | the same with the audited target in the place of the promoted definition |
| `CatalogActivation.StatusSums` | `scripts/reconnections_catalog_activate.py:66-84` | a traffic status exists exactly for a settled service with a complete allocation, and consists of its rows |
| `CatalogActivation.SameStatus` | `scripts/reconnections_catalog_activate.py:84` | comparing two statuses does not depend on the order in which the service lists its rows |
| `CatalogActivation.PlanExactly` | `scripts/reconnections_catalog_activate.py:56-109` | a plan is made exactly for the service as reviewed: its image, distinct variables, base catalog, no build, no newer revision, a complete allocation with all traffic on the reviewed revision, and no earlier candidate |
| `CatalogActivation.PlanBase` | `scripts/reconnections_catalog_activate.py:87-106` | a plan is made only for the reviewed service as reviewed: base catalog, no build, no newer revision, all traffic on the reviewed revision |
| `CatalogActivation.PlanTraffic` | `scripts/reconnections_catalog_activate.py:87-126` | every traffic list a run writes sums to 100, keeps every share until the promotion, and has exactly one row for the candidate |
| `CatalogActivation.PlanTemplate` | `scripts/reconnections_catalog_activate.py:107-123` | the candidate's template is the production one with a new revision name and the two catalog variables |
| `CatalogActivation.SameTemplateMeans` | `scripts/reconnections_catalog_activate.py:129-134` | two templates compare equal only if they are, the order of their variables aside |
| `CatalogActivation.CloudRun.Update` | `scripts/reconnections_catalog_activate.py:166-178` | an update that takes effect replaced exactly the state whose etag it carries, and without a failing request only a later state refuses it |
| `CatalogActivation.CloudRun.StageCandidate` | `scripts/reconnections_catalog_activate.py:209-243` | up to the promotion only the validated original state is replaced; it goes on after exactly four reads that were what they are to be, and stops only when a request fails or one of them is not |
| `CatalogActivation.CloudRun.Promote` | `scripts/reconnections_catalog_activate.py:250-255` | it succeeds when the update takes effect, the live state is the candidate with all traffic and the service answers, and fails only when a request does or the live state is something else |
| `CatalogActivation.CloudRun.GoBack` | `scripts/reconnections_catalog_activate.py:256-277` | if the first read is the run's own state, the previous traffic is read at the end unless a request fails or the last read shows something else; a state that is not its own is left alone |
| `CatalogActivation.CloudRun.PromoteOrRestore` | `scripts/reconnections_catalog_activate.py:244-277` | the promotion and the restoration replace only states that passed the checks of that stage; a promotion that failed is restored unless a request of the way back fails or a read on it is not what it is to be |
| `CatalogActivation.CloudRun.Activate` | `scripts/reconnections_catalog_activate.py:209-282` | with arbitrary concurrent writers every effective update replaces a state the run itself validated; the restored exit implies a read showing the previous serving shares |
| `TestSchedule.LongestFirstFalls` | `scripts/ops/cloud-build-fallback/pytest_schedule.py:42` | the assignment order is by falling duration |
| `TestSchedule.SameOrder` | `scripts/ops/cloud-build-fallback/pytest_schedule.py:42` | the assignment order does not depend on the order in which the tests were collected |
| `TestSchedule.Capacities` | `scripts/ops/cloud-build-fallback/pytest_schedule.py:34-39` | the capacities sum to the number of tests and are the floor or, for the last workers, the ceiling of the average |
| `TestSchedule.PickWorker` | `scripts/ops/cloud-build-fallback/pytest_schedule.py:43-50` | the least loaded worker with room, the first of equals |
| `TestSchedule.LevelStep` | `scripts/ops/cloud-build-fallback/pytest_schedule.py:42-52` | giving a test to that worker keeps total_i - total_j within the longest duration less the slack of their lengths |
| `TestSchedule.AssignAll` | `scripts/ops/cloud-build-fallback/pytest_schedule.py:40-52` | a worker with room exists at every step; totals are the durations of the queues |
| `TestSchedule.BalancedOrder` | `scripts/ops/cloud-build-fallback/pytest_schedule.py:28-53` | a permutation in contiguous blocks of exactly the capacities; totals differ by at most the longest test and exceed the average by at most that; invalid input is refused exactly |
| `TestSchedule.DistinctCount` | `scripts/ops/cloud-build-fallback/pytest_schedule.py:32` | comparing the length of a list with that of its set tells exactly whether a test is repeated |
| `Lexical.AtMostIs` | `scripts/ops/cloud-build-fallback/pytest_schedule.py:42` | the order of equal durations is the lexicographic one of the names |
| `BuildMonths.NextDayIsNext` | `src/eng_platform_api/services/cloud_build_usage.py:45` | the calendar has neither gaps nor overlaps: the next day is the next ordinal |
| `BuildMonths.MonthBoundsAre` | `src/eng_platform_api/services/cloud_build_usage.py:43-46` | day 28 plus four days, back to day 1, is the first of the next month for all month lengths and leap years |
| `BuildMonths.InstantsOrdered` | `src/eng_platform_api/services/cloud_build_usage.py:36-40` | instants are ordered as dates and times of day are |
| `BuildMonths.OneMonth` | `src/eng_platform_api/services/cloud_build_usage.py:112-117` | a stretch inside one month overlaps that month whole and every other month not at all |
| `BuildMonths.SplitMonths` | `src/eng_platform_api/services/cloud_build_usage.py:104-117` | the loop ends, writes each month once, gives each month exactly its part, and the parts add up to the duration |
| `BuildMonths.Allocations` | `src/eng_platform_api/services/cloud_build_usage.py:104-120` | refused exactly when the build finished before it started; a build without duration is kept in its creation month |
| `BuildUsage.Aggregate` | `src/eng_platform_api/services/cloud_build_usage.py:189-214` | every total is the sum over the complete rows of the month, every counter counts what it names, and the categories add up to the project |
| `BuildUsage.CostsAtOneRate` | `src/eng_platform_api/services/cloud_build_usage.py:209-213` | at one rate the costs of a category are that rate times its minutes |
| `BuildUsage.SumPermutes` | `src/eng_platform_api/services/cloud_build_usage.py:198-208` | minutes, costs and all four counters are the same for permuted rows |
| `BuildUsage.SameTotals` | `src/eng_platform_api/services/cloud_build_usage.py:198-214` | the totals do not depend on the order in which the ledger hands out its rows |
| `BuildLedger.MergeRun` | `src/eng_platform_api/services/cloud_build_usage_store.py:117-134` | over any sequence of merges, of which any attempts may be run again on the row they changed, a row stays complete, is never observed earlier and keeps a verified link |
| `BuildLedger.LastWins` | `src/eng_platform_api/services/cloud_build_usage_store.py:117-134` | what was observed last, and last of all that was observed then, is what a row ends with, if it is finished or nothing is, in whatever order the other rows arrive; a link it came with stays |
| `BuildLedger.PutAll` | `src/eng_platform_api/services/cloud_build_usage_store.py:117-134` | any calls for one key on one store leave the merge of their rows |
| `BuildLedger.ClaimAll` | `src/eng_platform_api/services/cloud_build_usage_store.py:99-114` | for any calls on one store: two granted calls on a key are at least the first one's interval apart, and a call is refused only while the interval of an earlier granted one runs |
| `BuildLedger.ClaimsApart` | `src/eng_platform_api/services/cloud_build_usage_store.py:99-114` | two granted reservations of a key are at least the first one's interval apart |
| `BuildLedger.CarriedKeeps` | `src/eng_platform_api/services/cloud_build_usage_store.py:56-80` | attempts that do not commit leave the observation of the row as it was, and a linked row untouched |
| `BuildLedger.Store.PutBuild` | `src/eng_platform_api/services/cloud_build_usage_store.py:117-134` | the stored row is the merge of the row as the uncommitted attempts left it, and no other row changes |
| `BuildLedger.Store.Claim` | `src/eng_platform_api/services/cloud_build_usage_store.py:99-114` | granted exactly when the key has no throttle or its next due time has come, in terms of the stored rows; the new row is due an interval later, and no other row changes |
| `BuildSweep.CoveredResumed` | `src/eng_platform_api/services/cloud_build_usage.py:366-377` | a new window that begins a day before the watermark keeps every build behind it that was listed in time |
| `BuildSweep.InvStep` | `src/eng_platform_api/services/cloud_build_usage.py:364-396` | every step of any run, any listing and any crash keeps: what lies behind a cursor and was listed in time is in the ledger, whatever happens to other builds |
| `BuildSweep.NothingMissed` | `src/eng_platform_api/services/cloud_build_usage.py:364-396` | at watermark W a build created since the first window's start that showed in listings by W, and no later than the overlap allows, is in the ledger; other builds may be as late as they like |
| `BuildSweep.NothingMissedAfterADay` | `src/eng_platform_api/services/cloud_build_usage.py:368-372` | a day past its creation such a build is in the ledger |
| `BuildSweep.NothingInvented` | `src/eng_platform_api/services/cloud_build_usage.py:368-396` | the ledger holds only what it held at the start and builds the inventory listed, created no earlier than the overlap before the first month start; the coverage begins at a month start a run was given |
| `BuildSweep.LateIsMissed` | `src/eng_platform_api/services/cloud_build_usage.py:366-392` | every build that is listed later than the overlap allows is missed by some history of two sweeps |
| `BuildSweep.ExactLateness` | `src/eng_platform_api/services/cloud_build_usage.py:366-392` | no build of at most a given lateness is ever missed if and only if that lateness is at most the overlap and one tick |
| `StateFiles.ReadsWhatWasSaved` | `scripts/ops/cloud-build-fallback/control.py:24-39` | for every nested value with distinct names: what json.dump writes over several lines, json.loads reads as that value |
| `StateFiles.NumberShape` | `scripts/ops/cloud-build-fallback/control.py:25` | a text is read as one number exactly when it has the shape of section 6 of RFC 8259 |
| `BuildSubmission.BuildFileIsNotCanonical` | `scripts/ops/cloud-build-fallback/control.py:130-131` | no build file is the state file of any prepared directory |
| `BuildSubmission.BuildFileIs` | `scripts/ops/cloud-build-fallback/control.py:131` | the build file of a directory |
| `BuildSubmission.SuffixReplaced` | `scripts/ops/cloud-build-fallback/control.py:131` | a suffix of the mirror's name is replaced |
| `BuildSubmission.SuffixAdded` | `scripts/ops/cloud-build-fallback/control.py:131` | a name without a suffix gets one |
| `BuildSubmission.Alone` | `scripts/ops/cloud-build-fallback/control.py:198` | two runs of one directory are never inside its lock at once |
| `BuildSubmission.InvStep` | `scripts/ops/cloud-build-fallback/control.py:178-243` | every step of every run keeps the protocol's invariant |
| `BuildSubmission.SubmittedOnce` | `scripts/ops/cloud-build-fallback/control.py:193-243` | over any runs, contents of files, interleavings and crashes the submit call is made at most once for a prepared directory |
| `BuildSubmission.ReturnsItsBuild` | `scripts/ops/cloud-build-fallback/control.py:104-132` | a run that returns, returns a build of its own request, whatever the files held |
| `BuildSubmission.BindsUniquely` | `scripts/ops/cloud-build-fallback/control.py:104-130` | a run that reconciles binds the saved build if it carries its fingerprint, and without a saved one only the one listed build that does; with none or several it binds nothing |
| `BuildSubmission.ReconcilesIfUnique` | `scripts/ops/cloud-build-fallback/control.py:104-130` | and in these cases it does go on |
| `BuildSubmission.AdoptsOnlyItsOwn` | `scripts/ops/cloud-build-fallback/control.py:199-204` | a mirror is adopted only if it is a state of this request and there is no state file |
| `BuildSubmission.SubmitsOnlyWithoutState` | `scripts/ops/cloud-build-fallback/control.py:205-214` | a state file of this request is reconciled, and a run goes on to submit only without one and only if it was asked to |
| `BuildSubmission.SubmitsPrepared` | `scripts/ops/cloud-build-fallback/control.py:214-231` | whenever the call is made its intent is on record, nothing was submitted for the directory, and the slot is reserved with the facts of the request |
| `BuildSubmission.RecordsItsBuild` | `scripts/ops/cloud-build-fallback/control.py:217-242` | the intent is recorded in both places before the call, and the build in both after it |
| `BuildSubmission.SubmitsAndReturns` | `scripts/ops/cloud-build-fallback/control.py:178-243` | a run for an experiment with nothing on record can reserve, submit once and return the build |
| `BuildSubmission.MisboundIsCopied` | `scripts/ops/cloud-build-fallback/control.py:193-243` | a file binds the build of another request if and only if it is a copy of such a file that was there at the start |
| `BuildSubmission.BindsOnlyVerified` | `scripts/ops/cloud-build-fallback/control.py:193-243` | no file ever binds the build of another request if and only if none does at the start |
| `BuildSubmission.AdoptsUnverified` | `scripts/ops/cloud-build-fallback/control.py:199-204` | the run in which a mirror that binds the build of another request becomes the state file before anything is described |
| `BuildSubmission.LedgersSound` | `scripts/ops/cloud-build-fallback/control.py:146-175` | an experiment ledger at any time has distinct fingerprints, one commit and base, and profiles that fit their slots if and only if the one at its path at the start had, if there was one |
| `BuildSubmission.SlotsStayReserved` | `scripts/ops/cloud-build-fallback/control.py:146-175` | a reserved slot keeps its entry in every later ledger of the path |
| `GoCoverage.MergeBlocks` | `scripts/quality/go_coverage.py:50-78` | fails exactly on an improper range or conflicting statement counts; in every mode a merged block is hit when some row says so |
| `GoCoverage.Totals` | `scripts/quality/go_coverage.py:79-83` | the totals are the weights of all blocks and of the hit ones, and the second is at most the first |
| `GoCoverage.HalfOpen` | `scripts/quality/go_coverage.py:92-94` | a block holds its start, not its end, and what lies between them |
| `GoCoverage.BlocksJoin` | `scripts/quality/go_coverage.py:92-94` | adjacent blocks share no statement and lose none |
| `GoCoverage.SourceLines` | `scripts/quality/go_coverage.py:87-100` | fails exactly when a statement lies in no block; a line is covered if and only if every statement on it lies in some hit block |
| `GoCoverage.Coverage` | `scripts/quality/go_coverage.py:47-101` | the whole: fails exactly on inconsistent blocks, no statements or a missing one; the percentage is the hit share and lies between 0 and 100 |
| `GoCoverage.SameFailure` | `scripts/quality/go_coverage.py:52-98` | the order of the rows does not matter to whether it fails |
| `GoCoverage.SameReport` | `scripts/quality/go_coverage.py:73-101` | neither the order of the rows nor the mode matters to the report |
| `WorkerDatabases.DsnRoundTrip` | `scripts/ops/cloud-build-fallback/postgres_workers.py:102-122` | the database name is read back from its connection string, whatever the credentials and options hold |
| `WorkerDatabases.CredentialsRoundTrip` | `scripts/ops/cloud-build-fallback/postgres_workers.py:102-119` | user, password, host and port are read back from it |
| `WorkerDatabases.UnquoteQuote` | `scripts/ops/cloud-build-fallback/postgres_workers.py:114-119` | percent-decoding undoes the quoting |
| `WorkerDatabases.Pool.DropAll` | `scripts/ops/cloud-build-fallback/postgres_workers.py:189-202` | a database leaves the list exactly when it could be dropped |
| `WorkerDatabases.Pool.Prune` | `scripts/ops/cloud-build-fallback/postgres_workers.py:203-209` | exactly the assignments whose databases are all still listed remain |
| `WorkerDatabases.Pool.Close` | `scripts/ops/cloud-build-fallback/postgres_workers.py:189-213` | without an error nothing is left but what failed creations leaked; after a drop that failed although it took effect it always raises; the invariant holds either way |
| `WorkerDatabases.Pool.CreateOne` | `scripts/ops/cloud-build-fallback/postgres_workers.py:172-185` | a database on the list, or everything dropped but what the server refused to drop |
| `WorkerDatabases.Pool.DropOne` | `scripts/ops/cloud-build-fallback/postgres_workers.py:191-202` | the list is wrong exactly about databases whose creation or drop failed after its effect, after every command |
| `WorkerDatabases.Pool.Allocate` | `scripts/ops/cloud-build-fallback/postgres_workers.py:156-187` | every cached assignment names only listed databases, whatever fails; a worker keeps its databases |
| `WorkerDatabases.LeakingRun` | `scripts/ops/cloud-build-fallback/postgres_workers.py:156-187` | an allocation whose first creation fails after it took effect leaves the database on the server and an empty list |
| `WorkerDatabases.Run` | `scripts/ops/cloud-build-fallback/postgres_workers.py:156-213` | after any allocations and closings under any faults, every database on the server is listed if and only if no creation failed after its effect, and every listed one exists if and only if no drop did |
| `CostCache.InvStep` | `src/eng_platform_api/routers/costs.py:25-59` | every step of every thread keeps the cache's invariant |
| `CostCache.OneLoader` | `src/eng_platform_api/routers/costs.py:31-45` | two loaders never run for one key at once |
| `CostCache.AnswersAreLoads` | `src/eng_platform_api/routers/costs.py:31-59` | every answer to an owner, a waiter or from the cache is what one load of that key produced |
| `CostCache.FreshOrLoading` | `src/eng_platform_api/routers/costs.py:34-42` | an answer from the cache is younger than the lifetime, and a load starts only when there is none and nobody loads the key |
| `CostCache.ServedWithinLifetime` | `src/eng_platform_api/routers/costs.py:34-59` | a loaded value, or a later one, answers every call for its key within the lifetime without a load |
| `CostCache.TwoCalls` | `src/eng_platform_api/routers/costs.py:31-59` | two calls for one key, one of which loads and the other waits, get one outcome, and only a value is kept |
| `CostCache.NobodyWaitsInVain` | `src/eng_platform_api/routers/costs.py:46-58` | no future stays unresolved once no thread is at work |
| `CostAlerts.InvStep` | `src/eng_platform_api/services/cost_alerts.py:172-216` | text and destination are frozen by the first reservation and a result is never lost |
| `CostAlerts.OneMessage` | `src/eng_platform_api/services/cost_alerts.py:185-209` | all deliveries under one event key carry one text and go to one destination |
| `CostAlerts.ReadsExactly` | `src/eng_platform_api/services/cost_alerts.py:172-182` | an attempt goes on only to the destination on record, without a result, with the text on record or one it composed |
| `CostAlerts.ReservesExactly` | `src/eng_platform_api/services/cost_alerts.py:185-207` | it may deliver exactly when no result is recorded and no lease runs, with the text on record or its own, under a new lease; otherwise nothing changes |
| `CostAlerts.DeliversWhatWasComposed` | `src/eng_platform_api/services/cost_alerts.py:177-209` | every delivered text was composed by an attempt while none was on record |
| `CostAlerts.OneAttempt` | `src/eng_platform_api/services/cost_alerts.py:165-216` | a single attempt delivers its text once and records the result |
| `CostAlerts.NoDeliveryAfterResult` | `src/eng_platform_api/services/cost_alerts.py:190-209` | an attempt that has not reserved when a result is recorded never delivers |
| `CostAlerts.LeaseHolds` | `src/eng_platform_api/services/cost_alerts.py:190-200` | unless the claim was released in between, the next attempt that is granted it comes a whole lease later |

## Left out

- SetFieldDecodes: the literal is the exact text of one value, without white space around it, as every caller passes it.
- Numbers are compared by their lexeme, except as names in `PinReconnections`, where which lexemes denote equal numbers is a parameter. So two numbers written differently (1 and 1.0) count as different values; the equality checks of the pins are therefore proved for a finer equality than Python's.
- The reviewed digests and service tables are parameters, and the comparison of repositories without regard to case is one; the reports written next to the candidates are not modelled beyond their edits.
- Reading and writing files, command-line parsing and the refusal to overwrite the source.
- ReleaseService: a readiness probe that succeeds is taken to speak the truth about the revision behind the URL; hooks, smoke tests and probes leave traffic and grants alone, and profiles with a recovery or rollback hook are not covered.
- ReleaseService.Cloud.ReadTraffic: the check that a traffic snapshot sums to 100 is one more way for the read to fail.
- ReleaseJob: volatile metadata of a Job definition is not represented, as the comparison of definitions ignores it; the check-only variable and the runtime-v1 scope are taken from the profile as constants.
- CatalogActivation: revision names stand for the last component of their resource names; polling and its deadlines are one step that may fail; the upload of the catalog object and the smoke tests have any outcome.
- CatalogActivation: reconciliation by the server is one of the writers that may change the service at any time.
- TestSchedule: durations are exact reals; the validation of the historical profile and the rounding of the reported totals.
- BuildMonths: months are pairs of year and month rather than formatted strings, and the calendar has no last year.
- BuildUsage: the prices are given with the rows; rounding, alert thresholds and the billing query.
- BuildSweep: one region; the throttling of the sweeps, so that any number of them may overlap.
- BuildSubmission: state files and experiment ledgers are assumed not to name a lock file, since replacing a lock file would detach the lock that is held on it; the manifest check is represented by a request fixed for each directory, and registering quality evidence is not modelled.
- StateFiles: that a file is replaced in one step and reaches the disk is taken for granted by `BuildSubmission`; floating-point numbers are kept by their lexeme.
- BuildLedger: timestamps are integers; the transport of transactions to Firestore, of which only the attempts that do not commit are represented, by the rows they saw.
- GoCoverage: parsing of the report and of the syntax helper's output, and the mapping of names to paths; sources have distinct paths.
- WorkerDatabases: databases of other runs, which the random part of the names keeps apart; quoting of characters beyond one byte, and the validation of the connection strings except that host and port hold no separator.
- CostCache: the key already holds the caller's identity and the local date; mock mode.
- CostAlerts: authorization, and the composition of the text; the gateway's own idempotency.
- HTTP routers, tools, consent pages, sessions and configuration: flat validation without state.
