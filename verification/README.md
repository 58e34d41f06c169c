# Verification of DSProd's stateful protocols

DSProd drives grid productions that run for days: it submits CRAB jobs in waves, watches them, repairs
what the storage loses and merges what they produce. This project models the protocols whose guarantees
the program states in comments, and proves them for any number of jobs, sites, polls and interleavings.

`dafny verify dfyconfig.toml` checks everything, in a minute or two.

| files | what they model |
|---|---|
| `Watchdog`, `WatchdogRuns`, `WatchdogTiming`, `WatchdogCaps`, `WatchdogGuard`, `WatchdogGap`, `WatchdogSettings`, `Heartbeat` | the stall watchdog: a job's heartbeat loop, one listing of flags per interval, verdicts on every query, over three clocks |
| `ListingCache`, `GfalInterface`, `ListingSoundness`, `ListingRuns`, `ListingReuse` | the cache of directory listings, and when its answers agree with the storage tree |
| `WaveGate`, `WaveRuns`, `WaveTheorems`, `WaveSizes`, `WaveJobs` | the wave gate of the CRAB driver: retries parked in front of the backlog, a release clock, conservation of jobs |
| `PruneProtocol`, `PruneRecords` | producing, merging and pruning over shared storage, concurrently |
| `Numbering`, `MergeNumbering`, `EventConservation`, `RunChain` | seeds, merge groups and branch numbers, and the events they deliver |
| `AtomicPublish`, `PublishSteps` | upload, verify, rename by racing writers |
| `Production` | produce, repair, merge, re-executed from the top by luigi |
| `SiteStats`, `SiteRuns`, `SiteTheorems`, `SiteJudgement`, `SiteListing` | the site quarantine |
| `JobManager`, `JobManagerRuns`, `JobEndings` | the job manager's answers, its reasons to stop, its site record |
| `CrabResources` | cores and memory of a CRAB job |
| `Common` | options, results, lists without repetition |

Objects the program updates in place are classes; each method's contract ties the object to a function of
its old state, and the results about whole runs are lemmas about these functions. A run is a sequence of
events, or of states and events, with every outcome of the outside world -- storage, CRAB, law, luigi, the
clock -- left open. Assumed of law: offered retries are submitted first and the backlog fills the slots
from its front; a skip verdict is fixed during the poll loop and a skippable job is in `jobs`; a branch
belongs to one job. Assumed of luigi: a pass is repeated from the top once its dependency has completed,
and not at all if it failed. Assumed of the clocks: the watchdog's throttle (local time), its listings (UTC)
and the storage's stamps run on one clock, so there is no change to or from summer time and no skew. A run
of the job manager is one driver process; only the site record is followed over restarts.

Where the code differs from what it says of itself, the model follows the code:

- The heartbeat's comment reads a flag missing during an overwrite as a job on its way out. That holds
  for a flag counted before (`WatchdogGap.CountedOnceIsNeverFailed`); one never counted is read as a job
  that never started, and exactly then, with the grace over, the job is failed
  (`WatchdogGap.FailedExactlyIfMissing`, `WatchdogGap.OverwriteGapFailsAHealthyJob`).
- The stop over unscheduled polls speaks of consecutive ones; unreadable and refused polls in between do
  not reset the count (`JobManagerRuns.UnscheduledNeedNotBeConsecutive`).
- A directory listed through its parent keeps its listed mark under a new expiry while the entries of its
  own listing keep the old one, so "absent" can be said of a file that never went away
  (`ListingRuns.OutlivedListingMisleads`); the same happens to a directory made by an upload
  (`ListingRuns.NewDirectoryReadsAbsent`). Exactly the inferences from such listings are unsafe
  (`ListingSoundness.InferenceIsExact`).
- An upload that raised is taken to have left nothing, a removal that failed to have taken nothing away;
  if not, the cache is wrong until its entries expire (`ListingRuns.BenignExactly`).
- A refill fraction that is not a number is not replaced by the default, as the release window's is, and
  keeps a limited production from ever submitting (`WaveTheorems.NotANumberNeverSubmits`).
- What the site record has seen is forgotten at a restart (`JobManagerRuns.RestartRecordsAgain`).
- The repair bound ends a production whose sweeps keep finding losses, not one that loses a record before
  every pass: those are produced again without being counted (`Production.EndlessLosses`).
- A fault of our own cannot make every site fail one and the same test while no lift falls in between, but
  the two tests together can ban every site at once (`SiteTheorems.BothTestsCanBanAll`).
- Validation of a setup lets a negative job size pass; then nothing is delivered
  (`EventConservation.EventsConserved`).

## Model

| member | source | states |
|---|---|---|
| `Watchdog.StallWatchdog.Refresh` | `dsprod/watchdog.py:263-312` | one listing per call: it becomes the listing in force and frees the interval's verdicts; one that failed leaves none in force, so no verdict can rest on it |
| `Watchdog.StallWatchdog.ScanStatus` | `dsprod/watchdog.py:359-416` | the first loop of `verdicts` counts the watched running jobs, starts their clocks and collects the suspects in order |
| `Watchdog.StallWatchdog.IssueVerdicts` | `dsprod/watchdog.py:433-471` | the second loop condemns the suspects in order, as far as the caps per branch and per interval allow, and charges what it condemns |
| `Watchdog.StallWatchdog.Verdicts` | `dsprod/watchdog.py:359-471` | a query's verdicts and the memory after it, as one function of the memory before it, the status and the clock: no listing, no suspect or a storage fault means no verdict |
| `Watchdog.StallWatchdog.ForgetJob` | `dsprod/watchdog.py:480-487` | forgets the clocks and the flag of one job id and nothing else -- not what its branches were charged |
| `Watchdog.NoMoreThisInterval` | `dsprod/watchdog.py:441-444` | once the interval's verdicts are spent, breaking off the loop loses nothing |
| `WatchdogRuns.ThroughAreSpaced` | `dsprod/tools.py:294-311` | what the throttle lets through, of any calls in order of time: the first, no two within an interval, and one in every interval |
| `WatchdogRuns.ScanSuspects` | `dsprod/watchdog.py:368-414` | the suspects are exactly the watched running jobs the staleness rule holds for, judged on the memory before the query however often a job is named |
| `WatchdogRuns.SortKeeps` | `dsprod/watchdog.py:433-435` | the order verdicts are issued in loses, adds and repeats nobody |
| `WatchdogRuns.SortAscends` | `dsprod/watchdog.py:433-435` | ... and goes by job number |
| `WatchdogRuns.CondemnedByTheRule` | `dsprod/watchdog.py:389-471` | nothing is condemned but a watched job reported running, by the rule, on a listing that worked |
| `WatchdogTiming.ClocksAgreeAlways` | `dsprod/watchdog.py:263-331` | in every run the throttle, the listing and the query stay within an interval and a poll of each other, and both clocks of a job start together |
| `WatchdogTiming.ListingIsCurrent` | `dsprod/watchdog.py:263-275` | no query reads a listing an interval and a poll old, at any phase |
| `WatchdogTiming.HealthyJobIsNeverFailed` | `dsprod/watchdog.py:389-414` | no run at any phase fails a job whose beats land at most `gap` apart, if `gap` and a poll fit into the threshold and the first beat lands in time -- whatever other jobs, failed listings and stale flags of earlier attempts do |
| `WatchdogTiming.StalledJobIsDetected` | `dsprod/crab.py:1679-1721` | a job still reported running whose counted beats stopped is failed no later than the threshold, one interval and two polls afterwards, unless the fault guard or a cap spares it (law gives a branch to one job) |
| `WatchdogTiming.SilentJobIsDetected` | `dsprod/watchdog.py:413-414` | a job still reported running that never beats is failed no later than the grace, one interval and two polls after the listing it was first seen on, unless the fault guard or a cap spares it |
| `WatchdogTiming.NeverCondemnedEarly` | `dsprod/watchdog.py:389-414` | a verdict on an old flag comes only when its last write is the threshold back to the minute, one on a missing flag only after the grace since the first sighting and never once a flag was counted |
| `Heartbeat.RetriesBackOff` | `dsprod/watchdog.py:153-167` | a failed write is tried again within a quarter of the interval, and never sooner the more have failed in a row |
| `Heartbeat.RetriesDouble` | `dsprod/watchdog.py:153-167` | the first retry comes after a minute, each further one after twice the wait, up to that quarter |
| `Heartbeat.SinceLastBeat` | `dsprod/watchdog.py:153-167` | however writes fail and back off, the time since the last beat is bounded by the failures since it |
| `Heartbeat.LoopBeats` | `dsprod/watchdog.py:121-167` | a loop with at most `spare` failed writes in a row lands its beats within the worst gap those can make |
| `Heartbeat.BeatingJobIsNeverFailed` | `dsprod/watchdog.py:153-167` | the whole chain: a job that follows the loop is never failed by any run whose settings leave room for its worst gap and a poll |
| `Heartbeat.AcceptedSettingsLeaveRoom` | `dsprod/watchdog.py:71-91` | one full write and a five-minute poll fit the threshold exactly if its stamp is taken no earlier than the threshold less an interval and ten minutes before the end of the write: at every accepted setting for a stamp taken at the end, from 15 minutes on for any; at two missed checks or fewer the bounds of the check are exact |
| `Heartbeat.DefaultsRideOutTwoFailures` | `dsprod/watchdog.py:36-60` | under the default settings and five-minute polls no run fails a job that follows the loop with at most two failed writes in a row |
| `WatchdogGap.StalledExactlyIfMissing` | `dsprod/watchdog.py:389-414` | where listings may miss the flag, a job one of whose branches beats is found stalled if and only if that flag is missing, and either no flag of the job counts, none was ever counted and the grace is over, or those that count were left by others of its branches a threshold ago |
| `WatchdogGap.FailedExactlyIfMissing` | `dsprod/watchdog.py:389-471` | over every run: such a job is failed by a query only then, and then unless the fault guard or a cap spares it -- be the flag between delete and upload or removed at the branch's end |
| `WatchdogGap.CountedOnceIsNeverFailed` | `dsprod/watchdog.py:400-414` | so a job whose flag was counted once, and whose other branches leave no flag behind, is never failed, whatever later listings miss |
| `WatchdogGap.OneBranch` | `dsprod/watchdog.py:389-414` | for a job of one branch: counted once it is never failed, and a verdict means its flag is missing, was never counted, and the grace is over |
| `WatchdogGap.OverwriteGapFailsAHealthyJob` | `dsprod/watchdog.py:121-151` | the failing case is reached: a run whose listing falls between the delete and the upload of a beat fails the job |
| `WatchdogCaps.BranchIsRescuedAtMost` | `dsprod/watchdog.py:433-471` | over every run no branch gets more than `max_per_branch` verdicts, whatever job id carries it and whatever is forgotten |
| `WatchdogCaps.IntervalIsCapped` | `dsprod/watchdog.py:286-287` | over every run at most `max_per_interval` verdicts fall between two refreshes |
| `WatchdogTiming.FaultSilencesQuery` | `dsprod/watchdog.py:417-431` | ten running jobs or more of which more than the fraction are stalled: no verdict, and nothing is charged |
| `WatchdogGuard.MassStallFailsNobody` | `dsprod/watchdog.py:417-431` | so a query that finds every job of ten or more stalled at once fails nobody, in any run, with any fraction below one |
| `WatchdogGuard.BrokenWritesFailNobody` | `dsprod/watchdog.py:417-431` | and when writing to the storage breaks while reading works, none of ten or more healthy jobs is failed once their flags are all a threshold old |
| `WatchdogGuard.PassedOverOnlyByCaps` | `dsprod/watchdog.py:433-471` | otherwise a stalled job is passed over only if, after the query, the cap of the interval or of one of its branches is reached |
| `WatchdogGuard.RoomMeansAVerdict` | `dsprod/watchdog.py:433-471` | and with room under both caps for one of them some job is failed |
| `WatchdogGuard.DryRunFailsNobody` | `dsprod/watchdog.py:458-466` | a dry run fails nobody and charges nothing |
| `WatchdogGuard.ChargedIsIssued` | `dsprod/watchdog.py:286-287` | over every run a branch's count is the number of its verdicts, and the interval's that of the verdicts since the last listing |
| `WatchdogSettings.DefaultCaps` | `dsprod/watchdog.py:36-57` | under the defaults no branch is failed twice, nor more than five jobs between two listings |
| `WatchdogSettings.DefaultGuard` | `dsprod/watchdog.py:36-57` | ... and the guard holds exactly when ten run and more than half of them are stalled |
| `WatchdogSettings.DefaultsGiveAVerdict` | `dsprod/watchdog.py:36-57` | ... and where none was given to its branches and no more than four in the interval, a stalled job means a verdict |
| `WatchdogSettings.DefaultDelay` | `dsprod/watchdog.py:36-57` | ... and a job whose beats stopped is failed within 100 minutes, at five-minute polls, if nothing spares it |
| `WatchdogSettings.NoSettingsNoVerdicts` | `dsprod/watchdog.py:63-69` | without settings no run lists anything or fails anybody |
| `WatchdogSettings.WatchedArePublished` | `dsprod/watchdog.py:344-357` | the jobs watched are those of the last list published that have branches |
| `WatchdogSettings.TextOrder` | `dsprod/watchdog.py:433-435` | job numbers are ordered as texts: a prefix first, else by the first character that differs |
| `WatchdogSettings.AgeIsOfTheNewest` | `dsprod/watchdog.py:317-331` | the age of the newest flag that counts, none without one, and a stamp ahead of the clock counts as fresh |
| `ListingCache.PathCache.Set` | `dsprod/law_gfal.py:71-94` | what one entry becomes -- a listed directory stays listed under the new expiry -- and which negatives above it go |
| `ListingCache.PathCache.SetExists` | `dsprod/law_gfal.py:99-106` | storing a listing name by name, in any order, equals storing it at once |
| `ListingCache.PathCache.Lookup` | `dsprod/law_gfal.py:108-126` | the answer of a valid entry, else the negative of the nearest ancestor with one; expired entries on the way are dropped |
| `GfalInterface.GfalFileInterface.Exists` | `dsprod/law_gfal.py:175-203` | from the cache, from the cached listing of the directory, or from a listing taken now; what is learnt on the way is stored |
| `GfalInterface.GfalFileInterface.Listdir` | `dsprod/law_gfal.py:288-310` | the names and what they teach the cache; an absent directory is an error unless silent; a listing that failed teaches nothing |
| `GfalInterface.GfalFileInterface.ClimbAbsent` | `dsprod/law_gfal.py:312-335` | how far up an absence is recorded: to the first ancestor cached, listed or unreadable |
| `ListingSoundness.InferenceIsExact` | `dsprod/law_gfal.py:180-196` | a no inferred from a cached listing is safe if and only if the listing is at most a validity period old and the path was not made since: else a tree that fits all the process knows holds the path |
| `ListingRuns.BenignExactly` | `dsprod/law_gfal.py:205-253` | after an upload or a removal the entries are right again if and only if it is benign: the upload works, or leaves neither file nor directories the cache denies; what a removal does not find is not there, and what it takes away is not asserted |
| `ListingSoundness.AskTruth` | `dsprod/law_gfal.py:175-203` | one `exists`: what it keeps true of the cache, and when its answer is right |
| `ListingRuns.AnswersCanBeTrusted` | `dsprod/law_gfal.py:71-203` | over every benign run a yes is right, and a no is right if the directory's real listing is at most one validity period old and no upload made the path itself a directory since |
| `ListingRuns.NegativesStayTrue` | `dsprod/law_gfal.py:108-135` | while every question so far was grounded in a listing or entry that still covers it, no valid negative is wrong |
| `ListingRuns.GroundedIsExact` | `dsprod/law_gfal.py:175-203` | then every answer is exactly right |
| `ListingRuns.WrongAnswersAreInferred` | `dsprod/law_gfal.py:71-85` | in a benign run a wrong answer needs an inference, then or earlier, from a listing that no longer covers it; and every such inference is a no to a path the storage may hold for all the process knows |
| `ListingRuns.ExactAfterExpiry` | `dsprod/law_gfal.py:28-41` | for one validity period after the caches are emptied every answer is exactly right, if nothing is uploaded into a new directory |
| `ListingRuns.ExactAfterAnyExpiry` | `dsprod/law_gfal.py:28-41` | ... at any moment of a run, however much the cache has wrong by then |
| `ListingRuns.OutlivedListingMisleads` | `dsprod/law_gfal.py:71-94` | a parent's listing renews a directory's listed mark but not its children: any file asked for when their entries have expired and its own has not is denied, in every such run on every tree |
| `ListingRuns.NewDirectoryReadsAbsent` | `dsprod/law_gfal.py:223-286` | any directory an upload makes reads as absent while a listing of the directory above it, taken before, is valid |
| `ListingRuns.FailedUploadReadsAbsent` | `dsprod/law_gfal.py:237-253` | after an upload that raised, wherever it got, its target reads as absent for a validity period whatever the storage holds |
| `ListingRuns.UnseenRemovalReadsAbsent` | `dsprod/law_gfal.py:213-217` | so does a path whose removal did not find it |
| `ListingRuns.RemovalForgetsOnePath` | `dsprod/law_gfal.py:205-221` | a removal forgets at most the path itself, and nothing if it failed: whatever else it took away is asserted while its entries are valid |
| `ListingRuns.BrowseTellsTheTree` | `dsprod/law_gfal.py:288-310` | a listing names exactly what is in the directory; one not there is an error, or nothing if silent; one that cannot be read is an error |
| `ListingReuse.NoIsRemembered` | `dsprod/law_gfal.py:180-196` | a no that was not read from the cache answers again for a validity period, whatever the storage does |
| `ListingReuse.ListingAnswers` | `dsprod/law_gfal.py:99-135` | one listing answers every question about its directory for a validity period without the storage |
| `ListingReuse.ExpiredMarkIsGone` | `dsprod/law_gfal.py:71-85` | a directory whose entry expired is not taken for listed because its parent's listing names it |
| `ListingReuse.AbsenceIsRecorded` | `dsprod/law_gfal.py:312-335` | of the missing ancestors of a missing directory exactly those up to 32 levels above it are recorded as absent |
| `ListingReuse.AbsenceIsRecordedByListing` | `dsprod/law_gfal.py:301-310` | ... by a silent listing too |
| `ListingReuse.FirstPresentIsListed` | `dsprod/law_gfal.py:312-335` | ... and the first that is there is listed on the way |
| `ListingReuse.ClimbStopsAtFailure` | `dsprod/law_gfal.py:315-335` | ... and above a listing that fails nothing is recorded |
| `ListingReuse.ErrorsTeachNothing` | `dsprod/law_gfal.py:288-310` | a listing that raises changes nothing, a question that does no more than drop expired entries |
| `ListingReuse.NothingBelowIsLookedFor` | `dsprod/law_gfal.py:108-126` | below a recorded absence the storage is not asked, unless something in between is known |
| `ListingReuse.NothingAboveIsDenied` | `dsprod/law_gfal.py:249-253` | after an upload that worked no entry denies anything above its target |
| `WaveGate.CrabProxy.DropCompleteBacklog` | `dsprod/crab.py:1357-1371` | takes out of the backlog exactly the jobs law would pass by, keeping the order |
| `WaveGate.CrabProxy.ParkRetries` | `dsprod/crab.py:1438-1457` | moves the live offered retries from `jobs` to the front of the backlog, in order, and starts a clock for them |
| `WaveGate.CrabProxy.SubmitWave` | `dsprod/crab.py:1377-1436` | one call of `submit`: parked when law's tree cannot be read, else handed to law or parked as the gate says, with the clock updated before and after |
| `WaveRuns.InvAlways` | `dsprod/crab.py:1438-1457` | from a fresh start, whatever polls report, every step keeps the parked retries first in the backlog and, with the active jobs, within the slots |
| `WaveTheorems.OpenedRoundTakesAllRetries` | `dsprod/crab.py:1417-1430` | every round handed to law takes all parked retries and all live ones offered |
| `WaveTheorems.RetryIsReleased` | `dsprod/crab.py:1308-1355` | a parked retry is active again by the first round that is not skipped a release window later, though newer retries go in front of it |
| `WaveTheorems.WaitsLessThanTheWindow` | `dsprod/crab.py:1308-1355` | a retry still parked after a round that was not skipped has waited less than the window |
| `WaveTheorems.ClockRunsWhileParked` | `dsprod/crab.py:1284-1306` | after every round, skipped ones too, the clock runs exactly while a retry is parked -- from the start on, and after a restart from the first round that could read law's tree |
| `WaveTheorems.OpensWithinTwoPolls` | `dsprod/crab.py:1315-1355` | with nothing active the gate opens at this poll or the next if and only if the refill fraction is a number, or at one of them jobs are unlimited, nothing waits or a parked retry is due |
| `WaveTheorems.NotANumberNeverSubmits` | `dsprod/crab.py:1251-1259` | with a refill fraction that is not a number, a limit and a job waiting, no round of any run ever submits anything |
| `WaveTheorems.ClockOpeningsAreSpaced` | `dsprod/crab.py:1299-1306` | an opening caused by the clock alone comes no sooner than a release window after any opening before it |
| `WaveSizes.OpensExactlyWhen` | `dsprod/crab.py:1315-1355` | in numbers: a round is handed to law if and only if jobs are unlimited, nothing waits, backlog and free slots both reach the fraction of the slots, everything there is falls short of it, or a retry is due |
| `WaveSizes.OpenedRoundFills` | `dsprod/crab.py:1417-1430` | after it as many jobs are active as there are slots, or all there are |
| `WaveSizes.WaveIsWorthIt` | `dsprod/crab.py:1328-1332` | so one not opened by the clock submits at least that fraction, or there are fewer jobs than that in all: free slots alone never open it |
| `WaveSizes.WindowIs` | `dsprod/crab.py:1261-1274` | the release window is the minutes set, none if negative, 45 if not a finite number |
| `WaveJobs.JobsConserved` | `dsprod/crab.py:1357-1457` | from the drop at the start of `poll` on, waiting jobs and `jobs` are disjoint, add up to the distinct jobs there were, and every job keeps its branches |
| `PruneProtocol.InvAlways` | `dsprod/tasks.py:1280-1286` | whatever producers, merges and losses do, a recorded seed has a staged or merged file or is known lost: files before records, merged files before deletions |
| `PruneProtocol.MergedWasStaged` | `dsprod/tasks.py:1438-1452` | whatever is merged had all its inputs staged at one moment before |
| `PruneProtocol.StaleMeansLost` | `dsprod/tasks.py:1749-1774` | records, then staged, then merged: a seed called stale had really lost its file during the sweep, even if each name is read at its own moment |
| `PruneProtocol.NoLossNothingPruned` | `dsprod/tasks.py:1749-1774` | so where nothing is lost, nothing is deleted, under any interleaving |
| `PruneProtocol.MergedBeforeStagedIsUnsafe` | `dsprod/tasks.py:1749-1757` | the opposite order calls a seed stale that nothing ever happened to |
| `PruneRecords.Names` | `dsprod/tasks.py:1701-1737` | a failed listing reads as empty exactly if the first of five ancestors that answers does not carry the branch below; otherwise it is an error |
| `PruneRecords.NamesAreTrue` | `dsprod/tasks.py:1717-1737` | so whatever it answers is what the directory held at the moment of one of its listings |
| `PruneRecords.AnswerReadsDirectory` | `dsprod/tasks.py:1717-1737` | ... and counts as a listing in the sense of the protocol |
| `PruneRecords.FirstReadableDecides` | `dsprod/tasks.py:1717-1737` | the first of five ancestors that answers decides; if the branch is in it, or none answers, it is an error |
| `PruneRecords.Sweep` | `dsprod/tasks.py:1739-1813` | the three listings and the deletion together: whatever interleaves and whichever listing fails, only records of seeds that lost their file during the sweep are deleted, and only if asked |
| `PruneRecords.MergedSeeds` | `dsprod/tasks.py:1768-1771` | the seeds covered by merged files are those whose group's file is there |
| `PruneRecords.StaleByName` | `dsprod/tasks.py:1768-1780` | a recorded seed is stale exactly if neither its staged file nor the merged file of its group is among the names listed |
| `PruneRecords.RefusedIsShare` | `dsprod/tasks.py:1786-1800` | a sweep is refused exactly if the stale share of the recorded seeds is above the limit |
| `PruneRecords.CheckAndPrune` | `dsprod/tasks.py:1739-1813` | deletes exactly the recorded seeds nothing accounts for, and only if asked and below the allowed share; if a removal fails it is an error, and some of those seeds keep their record |
| `Numbering.ListRunProdBranches` | `dsprod/tasks.py:255-266` | the branch list of the nested loops |
| `Numbering.GroupAt` | `dsprod/tasks.py:288-297` | group `k` is the `k`-th slice of the seeds |
| `Numbering.SeedsGroup` | `dsprod/tasks.py:288-297` | every seed is in exactly one merge group, the one its position says |
| `Numbering.ValidExactlyWhen` | `dsprod/tasks.py:402-447` | a setup is accepted exactly if every point has its job size and every sample is a whole number of files |
| `EventConservation.BranchesAre` | `dsprod/tasks.py:255-266` | the `RunProd` numbering covers exactly the seeds of the selected eras and points |
| `EventConservation.BranchesOnce` | `dsprod/tasks.py:255-266` | ... each once |
| `EventConservation.BranchesInOrder` | `dsprod/tasks.py:255-266` | ... and in each era point by point, the seeds counting up |
| `EventConservation.IndexInverts` | `dsprod/tasks.py:1321-1340` | the index is defined exactly on the numbering and points back to it |
| `MergeNumbering.CreateBranchMap` | `dsprod/tasks.py:1308-1319` | ids count up through the nested loops without a gap |
| `MergeNumbering.OnlyItsGroups` | `dsprod/tasks.py:1308-1319` | the merge branches of one era, point and version are exactly its groups, once and in order |
| `EventConservation.RequiredOnce` | `dsprod/tasks.py:1359-1362` | every `RunProd` branch is required by exactly one merge branch per version of its era, whatever is selected |
| `EventConservation.CheckContracted` | `dsprod/tasks.py:1368-1409` | passes exactly if every record of the group asks for the setup's job size |
| `EventConservation.CheckMerge` | `dsprod/tasks.py:1438-1478` | passes exactly if all inputs are there and of the setup's size, and the merged file holds their sum and the contracted number |
| `EventConservation.AcceptedIsFull` | `dsprod/tasks.py:1438-1478` | a full merge of inputs none of which holds more than a job's events is accepted only if each holds exactly those, so nothing was lost |
| `EventConservation.GroupsAreFull` | `dsprod/tasks.py:402-447` | a validated setup with a positive job size fills every group |
| `EventConservation.EventsConserved` | `dsprod/tasks.py:402-447` | if every merge branch was merged from its inputs and passed `CheckMerge`, exactly the events asked for are delivered, per point, era and version, if and only if the job size is positive or nothing is asked for |
| `RunChain.RunSteps` | `dsprod/run_step.py:251-274` | each step reads the output of the one before; the chain succeeds exactly if every step between the ends delivered the events asked for |
| `RunChain.Run` | `dsprod/run_step.py:228-274` | ... between the first and last step named, an unknown one being an error |
| `AtomicPublish.Endpoint.Download` | `dsprod/grid_tools.py:182-236` | one attempt leaves the target as it was or replaces it by what was verified; it succeeds if and only if the name can be cleared, the copy and its sum are good, the rename works and the target is seen |
| `AtomicPublish.Endpoint.CopySafe` | `dsprod/grid_tools.py:146-245` | all attempts together: success means this content is published, any attempt in which nothing goes wrong means success, and the target never disappears |
| `AtomicPublish.SucceedsExactlyWhen` | `dsprod/grid_tools.py:182-245` | a call succeeds exactly if one of its attempts does, and the first that does decides what is published; it raises exactly if in every one a look, removal, copy, sum, rename or last look failed |
| `PublishSteps.AttemptIsSteps` | `dsprod/grid_tools.py:182-236` | one attempt does what the state machine does, step by step |
| `PublishSteps.CallIsARun` | `dsprod/tools.py:185-203` | so a call by itself is a run of the machine that returns or, after four attempts, raises: what is proved of all runs holds of it |
| `AtomicPublish.TargetIsAlwaysWhole` | `dsprod/grid_tools.py:173-245` | for any number of concurrent calls, failures, retries and crashes, the target holds its old content or one that some call was given, by checksum |
| `AtomicPublish.TargetIsExact` | `dsprod/grid_tools.py:206-215` | ... and exactly that content, unless a copy made during the run left something else with the same checksum |
| `AtomicPublish.CollisionIsPublished` | `dsprod/grid_tools.py:206-215` | the exception is real: for any two contents with one checksum there is a run that publishes the one for the other |
| `AtomicPublish.NeverAbsentAgain` | `dsprod/grid_tools.py:186-192` | once present the target is never absent again |
| `AtomicPublish.ReturnMeansPublished` | `dsprod/grid_tools.py:218-224` | a call that returns normally published its own content while it ran |
| `AtomicPublish.AttemptsAreBounded` | `dsprod/tools.py:185-203` | no call makes more than `n_retries` attempts |
| `AtomicPublish.UnknownSumPublishesAnything` | `dsprod/grid_tools.py:158-168` | a call that could not learn its checksum may publish a cut file |
| `Production.RepairTerminates` | `dsprod/tasks.py:1862-1935` | at most `max_repairs` + 1 sweeps delete anything; of the runs in which so many did, exactly those give up over losses whose last sweep did not itself fail; a run returns only with the merge complete; and it ends within `max_repairs` + 3 passes and one more for each loss seen outside a sweep |
| `Production.SweepFailsLast` | `dsprod/tasks.py:1675-1699` | a run that ends in a sweep's error met it in its last pass, and deleted in one sweep more than it counted rounds exactly if that one deleted before it failed |
| `Production.DeletingSweepFails` | `dsprod/tasks.py:1675-1699` | after any number of rounds a sweep may delete and fail: the run then ends in its error and not over losses |
| `Production.BoundIsReached` | `dsprod/tasks.py:1911-1935` | for any number of such losses a run is still going one pass before that bound |
| `Production.EndlessLosses` | `dsprod/tasks.py:1911-1935` | with records lost before every pass the run never ends, and neither sweeps nor counts a round |
| `Production.NoRepairsNoDeletions` | `dsprod/tasks.py:1868-1899` | with the repair switched off nothing is deleted and several processes are no error |
| `Production.OneProcessIsNeeded` | `dsprod/tasks.py:1868-1899` | several processes are an error exactly if the repair is on, and nothing is done before |
| `Production.DeletesExactlyWhen` | `dsprod/tasks.py:1911-1933` | records are deleted in exactly the passes that find everything produced, the merge not complete, and something stale |
| `Production.MergesWhatIsProduced` | `dsprod/tasks.py:1911-1935` | the merge is asked for only with everything produced by the last word on it |
| `Production.EndsExactlyWhen` | `dsprod/tasks.py:1911-1935` | which of its four ends a pass comes to, or none |
| `SiteStats.Statistics.NoteOutcome` | `dsprod/site_stats.py:155-165` | one outcome is appended to its site and outcomes outside the window are dropped everywhere; a placeholder is no site |
| `SiteStats.Statistics.ExpireAll` | `dsprod/site_stats.py:259-275` | a ban that ran out is lifted at its own end, not at the poll that notices |
| `SiteStats.Statistics.QuarantineAll` | `dsprod/site_stats.py:300-308` | the in-place loop equals judging every site on the same figures and banning all offenders at once |
| `SiteStats.SameJudgement` | `dsprod/site_stats.py:225-249` | a site's judgement depends on its own record and on the outcomes elsewhere, never on other sites' bans |
| `SiteStats.Statistics.JudgeBurst` | `dsprod/site_stats.py:236-249` | the burst test as the standing test over the outcomes since the later of the window and the last lift |
| `SiteStats.Statistics.JudgeFailing` | `dsprod/site_stats.py:310-321` | the standing test over everything sent there since the last lift, against the rate everywhere else |
| `SiteStats.Statistics.Blacklist` | `dsprod/site_stats.py:169-185` | lifts, judges and lists, in that order |
| `SiteListing.ListedAreTheWorst` | `dsprod/site_stats.py:178-185` | the list is the worst `max_sites` active sites, worst first; none left out has more failures than one in it |
| `SiteRuns.ConsistentAlways` | `dsprod/site_stats.py:259-308` | in every run a site's record agrees with its history: the count is the number of bans, the deadline or the lift is the last ban's |
| `SiteTheorems.BansEscalateAndAreEarned` | `dsprod/site_stats.py:259-308` | in every run the bans of a site do not overlap, the i-th lasts the base doubled i times up to the ceiling, and bans times the fewest failures one needs never exceed the failures recorded there |
| `SiteTheorems.BanHasFreshEvidence` | `dsprod/site_stats.py:200-213` | every ban rests on failures since the last ban ended; those that earned an earlier one cannot arm it |
| `SiteTheorems.BansGrow` | `dsprod/site_stats.py:292-298` | each ban is at least as long as the one before, and twice as long below the ceiling |
| `SiteJudgement.RecordIsWindow` | `dsprod/site_stats.py:251-257` | in every run a record holds exactly the outcomes of its site since the window of the last pruning began |
| `SiteJudgement.StandsIsDeserves` | `dsprod/site_stats.py:236-249` | both tests in rates: enough failures, a high enough share of the site's own, enough jobs elsewhere, and so many times their rate |
| `SiteJudgement.BannedExactlyWhen` | `dsprod/site_stats.py:300-321` | over every run a poll bans a site if and only if it is free and, since its last lift, fails that comparison over all it was sent or over what ended in the burst window |
| `SiteTheorems.PollingThroughABan` | `dsprod/site_stats.py:251-308` | while a ban runs, over any polls and outcomes, count, deadline and lift stay and no further ban is imposed |
| `SiteTheorems.LowestRateIsSpared` | `dsprod/site_stats.py:277-321` | a site that fails no more often than any other passes neither test, if no lift falls inside its record |
| `SiteTheorems.SomeSiteIsSpared` | `dsprod/site_stats.py:310-321` | with no lift inside any record, a fault of our own never makes every site fail the standing test |
| `SiteTheorems.SomeSiteIsNoBurst` | `dsprod/site_stats.py:236-249` | with no lift inside the burst window, it never makes every site a burst |
| `SiteTheorems.SufficeExist` | `dsprod/site_stats.py:38-72` | for every setting with a failure rate below one there are numbers of jobs that meet all thresholds, as the next three need them |
| `SiteTheorems.LiftsCanBanAll` | `dsprod/site_stats.py:310-321` | the first condition is needed, at any such setting: two sites that failed only since their last lift both fail the standing test |
| `SiteTheorems.BurstLiftCanBanAll` | `dsprod/site_stats.py:236-249` | so is the second, at any such setting: with one lift inside the window both of two sites are bursts |
| `SiteTheorems.BothTestsCanBanAll` | `dsprod/site_stats.py:225-249` | and with no lift anywhere, at any such setting, the two tests together ban both of two sites in one poll |
| `JobManager.CrabJobManager.Query` | `dsprod/crab.py:758-812` | up to four readings, the memory after the first readable one, the jobs reported and the site record; an error exactly for a project unreadable too often |
| `JobManager.Reported` | `dsprod/crab.py:595-622` | of an answer that tells of jobs all are reported: a running one named by a verdict as failed without a code, every other as told; else all asked for, failed if refused and pending if not |
| `JobEndings.FirstReadableDecides` | `dsprod/crab.py:758-797` | the first of four answers that can be read decides, and none that can be is unreadable |
| `JobManager.CrabJobManager.ApplyWatchdog` | `dsprod/crab.py:595-635` | verdicts are applied to the fresh status, in order, and each stall is entered |
| `JobManager.CrabJobManager.Harvest` | `dsprod/crab.py:637-683` | endings CRAB itself reported are entered, unless seen or without a code |
| `JobManagerRuns.StopsExactlyWhen` | `dsprod/crab.py:865-954` | the run is told to stop exactly when two of its own submissions were refused, two failed to be submitted, or a project was found unscheduled too often since it last told of its jobs |
| `JobManagerRuns.ReasonIsTrue` | `dsprod/crab.py:865-954` | and the reason it is given is one of those that hold |
| `JobManagerRuns.StopStays` | `dsprod/crab.py:865-954` | once told, it stays told |
| `JobManagerRuns.RaisesExactlyWhen` | `dsprod/crab.py:799-812` | a query raises exactly if it and the ten polls of its project before it were unreadable |
| `JobManagerRuns.UnscheduledNeedNotBeConsecutive` | `dsprod/crab.py:875-886` | unreadable polls in between do not reset the count of unscheduled ones |
| `JobManagerRuns.RecordedOnce` | `dsprod/crab.py:624-683` | over every run of one process a job id enters the site record at most once per kind of outcome |
| `JobManagerRuns.RecordedOncePerProcess` | `dsprod/crab.py:424-683` | over restarts the record names a job exactly once for every process that saw it end so |
| `JobManagerRuns.RestartRecordsAgain` | `dsprod/crab.py:424-683` | so an ending that is still reported is entered again after a restart |
| `JobEndings.SeenExactlyWhenTold` | `dsprod/crab.py:595-683` | over every run of one process an ending is entered if and only if an answer told of it: finished, failed with a code, or running and named by a verdict -- and then not as broken too |
| `JobEndings.ChargedToTheLastSite` | `dsprod/crab.py:624-683` | ... at the last site the job had when it was first told |
| `CrabResources.CoresUp` | `dsprod/crab.py:130-132` | the smallest accepted core count that is enough, or the largest |
| `CrabResources.CoresDown` | `dsprod/crab.py:135-139` | the largest accepted core count within a limit, or the smallest |
| `CrabResources.GrantIsExact` | `dsprod/crab.py:1819-1861` | an accepted job is within CRAB's limits, runs on the fewest cores that suffice, keeps an explicit request and without one gets all its cores may have; a request of 1000 MB or more is refused if and only if no core count within the cap holds it |
| `CrabResources.FewestCores` | `dsprod/crab.py:1834-1841` | a job runs on the fewest cores within the cap that suffice for its threads and its memory, on all of the cap if none do |
| `CrabResources.CapAllows` | `dsprod/crab.py:1819-1823` | the counts allowed are those up to the configured limit, and one |
| `CrabResources.FirstPositiveIsAsked` | `dsprod/crab.py:1825-1832` | the request of the run, else of the task, else of the installation; zero or less is none |
| `CrabResources.DefaultsHold` | `dsprod/crab.py:1819-1861` | under the defaults more than 20000 MB is refused, and a job that asks for nothing gets one core and 3000 MB |
| `CrabResources.SuggestionWorks` | `dsprod/crab.py:1844-1856` | raising the cap to the suggested count gets the request accepted if and only if eight cores could hold it |
| `CrabResources.NoLessWorks` | `dsprod/crab.py:1844-1856` | and no smaller cap does |

## Left out

- Text handling: status and listing formats, report messages, file names beyond the numbers in them, CRAB's whitelist.
- All process, network and file input and output, credentials, tarballs, shell scripts, and the JSON file of the site record.
- Threads inside one object: a call that takes its lock is one step.
- Several clock readings inside one operation: each operation of the model reads the clock once, except a refresh, whose listing has its own time.
- Watchdog messages and their deduplication, and its counters of failed listings.
- The combined in-flight counts per project with their one-hour limit: the site model takes the counts as given.
- WatchdogTiming.StalledJobIsDetected: does not bound the delay while a cap or the storage-fault guard spares the job, because then there is no bound in the code either.
- RunProd's own order of steps beyond "stage, then record", and the gridpack, premix and installation tasks.
- The brake on a mass of initial retries and the clearing of law's verdicts when a run is resumed: both end or precede the rounds modelled here.
- Failures of law's own submission after the gate, and changes of `parallel_jobs` during a run.
- A listing of a path that is a file, `PathCache.invalidate`, and the copy mode with a flag file, which is not atomic.
- A `files_per_merge` that is not positive: zero is an error in the code, a negative number merges nothing.
- Rounding: rates, fractions and window lengths are real numbers, event counts are integers of any size.
- Temporary upload names and marker files: they are no paths of the modelled tree, and no question asks for them.
- The loop over points and versions around one sweep: each (era, point, version) has directories of its own, and a sweep of one reads and deletes nothing of another.
- Pattern selection of eras and points, `auto_parallel_jobs`, the registry and the process definitions: each is one expression over its input, with no state and no branch a property could span.
