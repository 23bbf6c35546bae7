# A model of the CBS build service

CBS builds container images: a Python service (`cbsd`) accepts builds, tracks them and serves their
logs; a library (`cbscore`) prepares sources and picks container descriptions; a Rust client and
server (`cbsd-rs`) replace parts of the first. This project states in Dafny what the stateful and
algorithmic parts do, and proves what they keep.

`dafny verify dfyconfig.toml` checks all of it.

| file | what it models |
|---|---|
| `Utf8.dfy`, `Lines.dfy` | UTF-8 (section 3 of RFC 3629) and splitting on a separator, as laws the readers below need |
| `Tail.dfy` | reading a log from its end in chunks, and streaming it in chunks |
| `LogHandler.dfy` | the log collector: running and finished streams, and its garbage collection |
| `BuildsDb.dfy`, `Tracker.dfy` | the build database, the tracker's two maps, and whole runs with crashes and restarts |
| `LogFollow.dfy` | following a live log page by page while it grows and is trimmed |
| `Worker.dfy` | the worker's Redis protocol: start, finish, revoking finish, interleaved |
| `Periodic.dfy` | the periodic scheduler, interleaved, and the retry loop of one runner |
| `ConfigSave.dfy` | the client's write-then-rename save, any number of savers and readers |
| `Patches.dfy` | the ordered patch list of a directory tree |
| `ContainerSelect.dfy` | the choice of a container description by version |
| `Capabilities.dfy` | capability lists: parsing with grants and revocations, printing |
| `ShortIds.dfy`, `Scopes.dfy` | short task ids against prefix resolution; scope patterns against channels |
| `Dispatch.dfy` | the server's priority queue and dispatching, interleaved with revocation and recovery |

Code that changes objects is a class or a method proved against a function of the old state. A
protocol is a machine over steps: a step is one section under a lock, one Redis pipeline, one system
call or one database update, and `RunAll` takes any legal sequence of steps. Failures of calls into
other systems are parameters of the steps.

## What turned out false

For each of these there is the exact condition under which it does hold, and a lemma with an input,
or a run from the empty system, that breaks it.

- Streaming a log decodes each chunk on its own, so it is complete only if no chunk ends inside a
  character (`LogFile.GetLog`; `LogFile.SomeTextIsCut`).
- A follow run has no gap only if no poll came after the trimming passed its cursor
  (`LogFollow.FollowIsContiguous`; `LogFollow.LatePollSkips`).
- A disabled periodic task can come back after a restart: the save of the call that added it takes
  its data before the lock (`Periodic.DisableIsFinal`; `Periodic.DisabledTaskReturns`), and disabling
  after failures is not saved at all (`Periodic.AutoDisableIsFinal`; `Periodic.AutoDisabledTaskReturns`).
- A finished build's record is replaced by a finish call that had already read the task and writes
  something else (`WorkerProtocol.OutcomeIsFinal`; `WorkerProtocol.FinishedBecomesRevoked`).
- A directory without prefix is accepted for a request with one whatever its version numbers are
  (`ContainerSelect.RankZeroIgnoresNumbers`; `ContainerSelect.OrderMattersAtRankZero`), and a searched
  directory that is named like the request wins or loses by the listing order
  (`ContainerSelect.OrderDoesNotMatter`; `ContainerSelect.OrderMattersForAVersionedRoot`).
- A scope pattern whose star cuts a channel's name short accepts values of the channel without
  covering it (`Scopes.CoversIsExact`; `Scopes.StarCutsName`).
- A build revoked while a rollback holds it is queued and run again, and one whose revocation is not
  written comes back with the next restart (`Dispatching.RevocationIsFinal`;
  `Dispatching.RevokedRunsAgain`).
- Printed capabilities are read back unchanged only if no name is a prefix of another
  (`Capabilities.PrintThenParse`; `Capabilities.PrefixNameGrantsMore`); both classes of the service
  meet this.

Where code and documentation disagree the model follows the code. `BuildsDB.update` means to report a
missing build as such, but the lookup raises first, so the general error comes out. The text of
`_periodic_task_runner` speaks of backing off, but the backoff only counts attempts.

## Model

| member | source | states |
|---|---|---|
| Utf8.DecodeEncode | cbsd/cbslib/core/utils.py:187-189 | Decoding an encoded text gives the text back. |
| Utf8.EncodeDecode | cbsd/cbslib/core/utils.py:187-189 | Octets that decode are the encoding of what they decode to, so the decoder accepts nothing else. |
| Utf8.DecodeAppend | cbsd/cbslib/core/utils.py:187-189 | After a valid front, the whole is valid iff the rest is, and then the texts concatenate. |
| Utf8.FrontDecodesAtBoundary | cbsd/cbslib/builds/logs.py:207-217 | A front of valid octets decodes iff it does not end inside a sequence. |
| Utf8.KnownEncodings | cbsd/cbslib/core/utils.py:187-189 | Characters of one, two and three octets, two of them from section 7 of RFC 3629, are encoded as printed there. |
| Utf8.KnownFourOctets | cbsd/cbslib/core/utils.py:187-189 | So is the four-octet character of that section. |
| Lines.SplitIsTheInverseOfJoin | cbsd/cbslib/core/utils.py:151-166 | Split gives the only non-empty list of separator-free pieces that joins to the input. |
| Lines.SplitAppend | cbsd/cbslib/core/utils.py:151-166 | Splitting a concatenation glues the last piece of one part to the first of the other. |
| Lines.EnoughPieces | cbsd/cbslib/core/utils.py:144-185 | More than n known pieces at the end decide the last n lines. |
| Lines.LinesOfTerminated | cbsd/cbslib/core/utils.py:179-182 | Lines written each with a separator behind it are read back, empty ones included. |
| Lines.LinesOfUnterminated | cbsd/cbslib/core/utils.py:179-182 | A last line that is not empty counts without a separator. |
| Lines.LastNMeans | cbsd/cbslib/core/utils.py:184-185 | The last n lines are a suffix, n long or all there is. |
| Tail.LastLines | cbsd/cbslib/core/utils.py:144-185 | For every content, line count and buffer size the backwards loop returns exactly the last lines, one trailing empty piece dropped. |
| Tail.TailFile | cbsd/cbslib/core/utils.py:120-197 | The same with the error exits, a file that cannot be opened or read, and the decoding of each line. |
| Tail.TailErrors | cbsd/cbslib/core/utils.py:120-143 | Which call fails with which error, and that a call for no lines and one on an empty file never fail. |
| Tail.HeldStep | cbsd/cbslib/core/utils.py:151-180 | The loop invariant: what is read splits into the buffer and the lines found, kept by every chunk. |
| Tail.HeldIsEnough | cbsd/cbslib/core/utils.py:144-185 | Stopping with more than n pieces is as good as reading the whole file. |
| Tail.DecodeCommutesWithSplit | cbsd/cbslib/core/utils.py:151-189 | Decoding each line equals splitting the decoded text, for every octet string, failing for one exactly when failing for the other. |
| Tail.TailOfText | cbsd/cbslib/core/utils.py:120-197 | For an encoded text the result is the last lines of that text. |
| LogFile.GetLog | cbsd/cbslib/builds/logs.py:207-217 | The download is the whole text iff the file is valid, no chunk ends inside a character and no read that is reached raises; otherwise what came before is a prefix. |
| LogFile.SomeTextIsCut | cbsd/cbslib/builds/logs.py:207-211 | For every chunk size some valid text is cut inside a character. |
| LogFile.DeliveredStep | cbsd/cbslib/builds/logs.py:207-211 | One more chunk extends the delivered text, or fails at a boundary that cuts a character. |
| LogHandler.Handler.Start | cbsd/cbslib/builds/logs.py:110-130 | Starting adds the build to the running set, or fails and changes nothing. |
| LogHandler.Handler.Finish | cbsd/cbslib/builds/logs.py:132-174 | Finishing in each of its outcomes gives the specified sets, buckets and error. |
| LogHandler.FinishMeans | cbsd/cbslib/builds/logs.py:132-174 | A finish stops the collection of that build alone unless cancelling fails, raises iff the marker fails, and else adds the build behind all others under the given time. |
| LogHandler.StartMeans | cbsd/cbslib/builds/logs.py:110-130 | A start adds that build alone, and fails iff the build is new and the log cannot be opened. |
| LogHandler.Handler.GcFinished | cbsd/cbslib/builds/logs.py:488-520 | A completed pass removes exactly the expired prefix and returns the oldest survivor's remaining time; a pass that raises at a build has trimmed exactly those before it and removes no bucket. |
| LogHandler.FinishKeepsOrder | cbsd/cbslib/builds/logs.py:142-174 | With a monotone clock the keys stay ascending and exactly one build is added, at the end. |
| LogHandler.PassRemovesExactlyTheExpired | cbsd/cbslib/builds/logs.py:488-520 | Everything removed was expired when trimmed, everything kept was not when the scan stopped, and the delay is the least remaining time. |
| LogHandler.EveryRunIsSound | cbsd/cbslib/builds/logs.py:132-174 | Over every run keys ascend, nothing is in the future and the builds finished are exactly those removed followed by those kept, in order. |
| BuildsDb.BuildsDB.Create | cbsd/cbslib/builds/db.py:140-147 | A new id and its record, with every failure between the two writes. |
| BuildsDb.BuildsDB.Update | cbsd/cbslib/builds/db.py:149-176 | Replaces one record or fails and changes nothing. |
| BuildsDb.BuildsDB.Get | cbsd/cbslib/builds/db.py:268-293 | The record, or which of the errors. |
| BuildsDb.UpdateThenGet | cbsd/cbslib/builds/db.py:149-176 | What is stored is read back, and every other build as before. |
| BuildsDb.CreateThenGet | cbsd/cbslib/builds/db.py:140-147 | The same for a new build. |
| BuildsDb.FailedCreate | cbsd/cbslib/builds/db.py:140-147 | A failed creation uses its id up, leaves the root, and leaves the record iff the root write was the one that failed. |
| BuildsDb.UpdateRefusals | cbsd/cbslib/builds/db.py:149-176 | An update succeeds iff the build can be read and the write works. |
| BuildsDb.GetRefusals | cbsd/cbslib/builds/db.py:268-293 | Which read fails with which error. |
| BuildsDb.BuildsDB.Gc | cbsd/cbslib/builds/db.py:178-217 | Exactly the collection of the records up to the last id, or up to the failing one. |
| BuildsDb.BuildsDB.Ls | cbsd/cbslib/builds/db.py:224-266 | Exactly the readable records of the range, each once, in ascending order, for every limit; or an error if the file cannot be read. |
| BuildsDb.Open | cbsd/cbslib/builds/db.py:80-99 | Opening takes the last id from the root record, or 0 without one; an unreadable file and a malformed root raise. |
| BuildsDb.CollectIsComplete | cbsd/cbslib/builds/db.py:178-210 | After collection every well-formed record in range is terminal, new, pending, started and retried ones having become failures; nothing else changed, and a second collection changes nothing. |
| Tracker.BuildsTracker.FailEntry | cbsd/cbslib/builds/tracker.py:83-107 | Fails one build in database and logs, and raises iff one of the two fails. |
| Tracker.BuildsTracker.NewBuild | cbsd/cbslib/builds/tracker.py:109-171 | All failing exits and the success, each with its whole new state, keeping the maps consistent. |
| Tracker.BuildsTracker.MarkTaskState | cbsd/cbslib/builds/tracker.py:244-289 | Marks the task's build, untracking it when terminal, with all failing exits. |
| Tracker.MarkStores | cbsd/cbslib/builds/tracker.py:252-289 | A stored mark leaves the state it was given, each time as given or else as it was, and all else unchanged; a terminal one untracks the build and ends its logs. |
| Tracker.FailedMarkChangesNothing | cbsd/cbslib/builds/tracker.py:252-275 | A mark that is not stored changes nothing. |
| Tracker.BuildsTracker.Revoke | cbsd/cbslib/builds/tracker.py:191-242 | Which answer in which case; the branch for a tracked build without task cannot happen. |
| Tracker.NewBuildFrame | cbsd/cbslib/builds/tracker.py:109-171 | A new build touches only the next id, whatever fails. |
| Tracker.NewBuildStores | cbsd/cbslib/builds/tracker.py:109-171 | A successful new build is stored with user, time, task and reported state, tracked both ways, logged and persistent. |
| Tracker.SetupFailureIsRecorded | cbsd/cbslib/builds/tracker.py:83-107 | A build that could not be set up is recorded as failed at that time and not tracked. |
| Tracker.NewBuildKeepsConsistent | cbsd/cbslib/builds/tracker.py:109-171 | The two maps stay mutual inverses with ids in range, tracked builds stay in the running set. |
| Tracker.MarkKeepsConsistent | cbsd/cbslib/builds/tracker.py:244-289 | The same for marking. |
| BuildRuns.EveryRunFromFirstStart | cbsd/cbslib/builds/tracker.py:109-289 | The invariant holds in every run of new, mark, revoke, crash, restart and collection. |
| BuildRuns.StepKeepsInv | cbsd/cbslib/builds/tracker.py:109-289 | Each event keeps it. |
| BuildRuns.SettledForever | cbsd/cbslib/builds/tracker.py:244-289 | A terminal untracked build's record never changes again. |
| BuildRuns.FirstOutcomeStands | cbsd/cbslib/builds/tracker.py:244-289 | The first terminal mark that is stored is the recorded outcome in every later run. |
| BuildRuns.IdsAreNeverReissued | cbsd/cbslib/builds/db.py:65-147 | An id once returned is never issued again and no later new build overwrites its record. |
| BuildRuns.RestartSettlesEverything | cbsd/cbslib/builds/mgr.py:113-121 | After restart and collection every well-formed build in range is settled. |
| LogFollow.Follow | cbsd/cbslib/builds/logs.py:313-376 | A running build is answered with the messages of its page and the id of the page's last entry; any other with its tail, as ended; or the error. |
| LogFollow.TailOfEnded | cbsd/cbslib/builds/logs.py:219-301 | The tail of a build that is not running: the newest messages left in Redis, else the last lines of its log file. |
| LogFollow.EndedMeans | cbsd/cbslib/builds/logs.py:219-301 | An ended build is answered from Redis if a message is left there, and otherwise exactly as its log file is read. |
| LogFollow.NewestIsTheEnd | cbsd/cbslib/builds/logs.py:255-262 | The newest entries are the stretch that ends with the last, as long as allowed. |
| LogFollow.MessagesAppend | cbsd/cbslib/builds/logs.py:366-372 | The messages of two lists of entries, one after the other, in order. |
| LogFollow.OneMessage | cbsd/cbslib/builds/logs.py:366-372 | An entry gives its message, or nothing without one. |
| LogFollow.PageIsCapped | cbsd/cbslib/builds/logs.py:331-332 | No page exceeds a hundred entries or a limit within that, and it is empty only behind the last entry. |
| LogFollow.PageIsTheReply | cbsd/cbslib/builds/logs.py:329-351 | A list is the page iff it starts after the cursor, is in order and is as long as allowed. |
| LogFollow.CursorIsExact | cbsd/cbslib/builds/logs.py:329-376 | The id of the k-th entry as cursor passes exactly k entries. |
| LogFollow.FollowIsContiguous | cbc/src/cbc/cmds/logs.py:192-208 | Consecutive non-empty polls deliver a contiguous stretch iff each came before the trimming passed its cursor. |
| LogFollow.SaidIsTheStretch | cbc/src/cbc/cmds/logs.py:192-208 | With punctual polls the message lists of all answers are, in order, the messages of the entries behind the first cursor. |
| LogFollow.FollowedIsAnswered | cbsd/cbslib/builds/logs.py:329-376 | Each page of such a session is the one the server answers with. |
| LogFollow.LatePollSkips | cbc/src/cbc/cmds/logs.py:192-208 | A second poll after two entries were dropped prints the first and the third. |
| WorkerProtocol.Worker.StartBuild | cbsd/cbslib/worker/worker.py:63-84 | One pipeline adds member, task key and started record, or nothing. |
| WorkerProtocol.Worker.FinishBuild | cbsd/cbslib/worker/worker.py:86-156 | When it stops the container, when it commits and with which flags, and that it raises exactly at the step that failed. |
| WorkerProtocol.CommitRecords | cbsd/cbslib/worker/worker.py:135-156 | The record is finished, revoked iff the call revokes, in error iff the call says so and does not revoke, otherwise as read; no other build changes. |
| WorkerProtocol.ErrorIsRecorded | cbsd/cbslib/worker/worker.py:135-156 | A run from an empty server that ends with the error flag set. |
| WorkerProtocol.EveryInterleavingKeepsInv | cbsd/cbslib/worker/worker.py:63-156 | Member iff task key iff started record, and a revoked record means a stop had returned, in every interleaving. |
| WorkerProtocol.FromAnEmptyServer | cbsd/cbslib/worker/worker.py:63-156 | In particular from an empty server. |
| WorkerProtocol.ReadIsOurs | cbsd/cbslib/worker/worker.py:127-133 | The check that a task belongs to another worker never fires. |
| WorkerProtocol.OnlyAStartRestarts | cbsd/cbslib/worker/worker.py:63-156 | A finished record returns to started only by a start of that build. |
| WorkerProtocol.OutcomeIsFinal | cbsd/cbslib/worker/worker.py:86-156 | The outcome of a task that is over stands until a new start iff every finish call still holding its record would write that same outcome. |
| WorkerProtocol.FinishedBecomesRevoked | cbsd/cbslib/worker/worker.py:86-156 | A run from an empty server records a build as finished and then as revoked. |
| WorkerProtocol.SecondWorkerLeavesAStaleMember | cbsd/cbslib/worker/worker.py:63-156 | With two workers on one task the set and the key come apart. |
| Periodic.PeriodicTracker.SetupTask | cbsd/cbslib/core/periodic.py:251-294 | A runner is made iff nothing is scheduled and the task is enabled with cron and descriptor. |
| Periodic.PeriodicTracker.OnTaskFinished | cbsd/cbslib/core/periodic.py:296-321 | Unschedules the task, and lowers its flag on request. |
| Periodic.PeriodicTracker.DisableTask | cbsd/cbslib/core/periodic.py:405-431 | Each answer in its case, the runner cancelled, what was saved; the missing-cron branch cannot happen. |
| Periodic.EveryInterleavingKeepsInv | cbsd/cbslib/core/periodic.py:243-429 | Scheduled means enabled with cron and descriptor, enabled means cron, a runner that may trigger is the scheduled one. |
| Periodic.OneRunnerPerTask | cbsd/cbslib/core/periodic.py:251-294 | In every run at most one runner of a task can still trigger. |
| Periodic.EnabledIsNeverForgotten | cbsd/cbslib/core/periodic.py:243-321 | In every run, faults and restarts included, an enabled task is scheduled or about to be. |
| Periodic.NextRunFollows | cbsd/cbslib/core/periodic.py:315-321 | A triggered run leads to a new runner of the same task, ready to trigger. |
| Periodic.RestartKnowsTheSaved | cbsd/cbslib/core/periodic.py:433-466 | A restart knows exactly the saved tasks with a valid cron, as saved, and schedules the enabled ones. |
| Periodic.ReportFindsItsEntry | cbsd/cbslib/core/periodic.py:315-319 | A reporting runner finds its own entry, so the deletion never raises. |
| Periodic.OffIsExact | cbsd/cbslib/core/periodic.py:405-488 | A task off in memory is never scheduled again iff it is not saved as enabled and no older save is pending. |
| Periodic.DisableIsFinal | cbsd/cbslib/core/periodic.py:405-488 | Disabling is final across restarts iff no save was pending and its own save did not fail over an enabled one. |
| Periodic.DisableClears | cbsd/cbslib/core/periodic.py:408-429 | Disabling takes the cron and the scheduled run, lowers the flag and cancels the runner, and touches no other task. |
| Periodic.DisabledUntilRestart | cbsd/cbslib/core/periodic.py:405-431 | After it, saved or not, no run is scheduled before a restart. |
| Periodic.AutoDisableIsFinal | cbsd/cbslib/core/periodic.py:296-321 | Disabling by a runner is final iff the task was never saved as enabled nor will be. |
| Periodic.DisabledTaskReturns | cbsd/cbslib/core/periodic.py:405-488 | A run in which a task disabled with success is scheduled after a restart. |
| Periodic.AutoDisabledTaskReturns | cbsd/cbslib/core/periodic.py:296-321 | A run in which a task disabled by its runner is scheduled after a restart. |
| Periodic.DisableHoldsUntilRestart | cbsd/cbslib/core/periodic.py:405-431 | Within one process a disabled task is never scheduled again. |
| Periodic.FailedSleepWedges | cbsd/cbslib/core/periodic.py:340-351 | After a failed sleep the task stays listed as scheduled with nobody to run it, until disabled or restarted. |
| PeriodicRunner.Run | cbsd/cbslib/core/periodic.py:336-382 | One report unless the sleep failed, asking to disable iff an error that is no retry occurred or the budget ran out; terminates for every factor above one. |
| PeriodicRunner.BudgetRunsOut | cbsd/cbslib/core/periodic.py:336-340 | Every budget is used up after finitely many retries. |
| PeriodicRunner.EightTurns | cbsd/cbslib/core/periodic.py:336-338 | With the constants of the code the budget is exactly eight attempts. |
| TempNames.TempNamesNeverCollide | cbsd-rs/cbc/src/config.rs:159-176 | Temporary names determine process and counter and differ from the target. |
| TempNames.TempNameShape | cbsd-rs/cbc/src/config.rs:159-176 | The name goes on where the target's ends, and ends in `.tmp`. |
| ConfigSave.CreateMode | cbsd-rs/cbc/src/config.rs:65-132 | The file is never open to group or others, and is 0600 unless the umask takes more. |
| ConfigSave.Directory.Save | cbsd-rs/cbc/src/config.rs:65-132 | One save: the target is replaced whole or untouched, no other name changes, no temporary file stays when removal works. |
| ConfigSave.TargetIsAlwaysComplete | cbsd-rs/cbc/src/config.rs:65-132 | Under every interleaving the target, and what any reader has open, is the initial or one save's complete content. |
| ConfigSave.LastSaveWins | cbsd-rs/cbc/src/config.rs:65-132 | In every run the target is exactly what the last successful save wrote, or the initial file if there was none. |
| ConfigSave.EveryInterleavingKeepsInv | cbsd-rs/cbc/src/config.rs:65-132 | The ownership invariant behind it. |
| ConfigSave.SealedNeverChanges | cbsd-rs/cbc/src/config.rs:65-132 | A file once visible under the target's name never changes. |
| ConfigSave.CreateDoesNotCollide | cbsd-rs/cbc/src/config.rs:65-132 | With unique pairs the exclusive creation meets a file iff that file was there when its save began. |
| ConfigSave.NoLeftovers | cbsd-rs/cbc/src/config.rs:65-132 | With unique pairs, whatever other saves do, a finished save leaves a file of its temporary name iff its own removal failed or that file was there before. |
| Patches.PatchList | cbscore/src/cbscore/builder/prepare.py:129-175 | Exactly the patches reached, none twice, deepest first and ascending by number, ties in walking order; or the first error, which there is iff some path leads to an entry that blocks the walk. |
| Patches.Collector.Visit | cbscore/src/cbscore/builder/prepare.py:135-166 | A visit adds what it yields to each level and keeps it sorted; the keys are inserted in increasing order. |
| Patches.Compare | cbscore/src/cbscore/builder/prepare.py:139-151 | Accepts exactly the version, its minor and its major form, and fails iff none of these and there is no major form. |
| Patches.FailsIffBlocked | cbscore/src/cbscore/builder/prepare.py:135-166 | The walk fails iff matching directories lead to an entry that cannot be compared or a plain file where a directory is expected. |
| Patches.SortingAgain | cbscore/src/cbscore/builder/prepare.py:164-166 | Re-sorting after each directory comes to the same list as sorting once. |
| Patches.StableSortKeepsTies | cbscore/src/cbscore/builder/prepare.py:164-166 | Patches of one number keep the order in which they were found. |
| Patches.ListIsExact | cbscore/src/cbscore/builder/prepare.py:129-175 | A patch is listed iff a chain of matching directories leads to it and its number is well formed. |
| Patches.ListHasNoDuplicates | cbscore/src/cbscore/builder/prepare.py:129-175 | No patch is listed twice. |
| Patches.ListOrder | cbscore/src/cbscore/builder/prepare.py:168-175 | Deeper patches come first, at one depth the numbers ascend. |
| ContainerSelect.MatchParts | cbscore/src/cbscore/containers/component.py:92-110 | The loop over the five groups returns the one value that is the rank in the sense of `IsRank`. |
| ContainerSelect.RankMeans | cbscore/src/cbscore/containers/component.py:92-110 | The rank is r iff the first r groups agree and then the directory stops, and -1 otherwise. |
| ContainerSelect.RankFixesVersion | cbscore/src/cbscore/containers/component.py:92-110 | A rank above 0 means a version prefix, the one cut off at the rank. |
| ContainerSelect.RankZeroIgnoresNumbers | cbscore/src/cbscore/containers/component.py:92-110 | Rank 0 means no more than a missing prefix. |
| ContainerSelect.FindContainerRoot | cbscore/src/cbscore/containers/component.py:74-123 | The loop over the candidates, last first, makes the choice the lemmas below are about. |
| ContainerSelect.ChoiceIsMaximal | cbscore/src/cbscore/containers/component.py:74-123 | The choice has maximal rank, the root counting as 0, iff the root does not win by the version in its own name, which is spelt out. |
| ContainerSelect.ChoiceIsLongestPrefix | cbscore/src/cbscore/containers/component.py:74-123 | Above rank 0 every directory below whose version is a prefix of the request is a prefix of the choice. |
| ContainerSelect.FailsOnlyWithoutCandidates | cbscore/src/cbscore/containers/component.py:74-123 | The search fails iff no root candidate exists and all others mismatch or are malformed. |
| ContainerSelect.OrderDoesNotMatter | cbscore/src/cbscore/containers/component.py:74-123 | Two listings of the same files give the same rank, and above 0 the same version, iff the root wins alone by its own name in both or in neither. |
| ContainerSelect.OrderMattersAtRankZero | cbscore/src/cbscore/containers/component.py:74-123 | At rank 0 two orders choose differently. |
| ContainerSelect.OrderMattersForAVersionedRoot | cbscore/src/cbscore/containers/component.py:74-123 | So they do when the searched directory is named like the request. |
| Capabilities.NameRoundTrip | cbsd/cbslib/core/permissions.py:51-64 | A member's canonical name leads back to it iff it has no lower-case letter or colon. |
| Capabilities.GetCapOfCanonical | cbsd/cbslib/core/permissions.py:51-64 | Looking up a member's canonical name gives that member. |
| Capabilities.GetCapCases | cbsd/cbslib/core/permissions.py:57-64 | `all` stands for every member, a member's name for that member, and any other name is refused. |
| Capabilities.Process | cbsd/cbslib/core/permissions.py:116-162 | The expansion of all patterns in order, or an error iff one is invalid. |
| Capabilities.Parse | cbsd/cbslib/core/permissions.py:104-181 | A member is in the result iff the last pattern matching it grants. |
| Capabilities.DashRevokes | cbsd/cbslib/core/permissions.py:128-162 | Appending a dash and a pattern takes away exactly the members the pattern matches. |
| Capabilities.PlainGrants | cbsd/cbslib/core/permissions.py:128-162 | Appending a pattern without dash adds exactly the members it matches. |
| Capabilities.AllAndMinusAll | cbsd/cbslib/core/permissions.py:139-141 | `all` gives every member and `-all` none. |
| Capabilities.DashedNameRevokes | cbsd/cbslib/core/permissions.py:128-162 | A dashed name takes away exactly the members whose names it starts. |
| Capabilities.DashKeepsValidity | cbsd/cbslib/core/permissions.py:143-156 | A dashed pattern is invalid iff the rest of it is. |
| Capabilities.LastMatchIsTheLast | cbsd/cbslib/core/permissions.py:164-173 | That predicate is decided by the one pattern after which none matches. |
| Capabilities.PrintThenParse | cbsd/cbslib/core/permissions.py:104-203 | Every set survives printing and parsing, which raises nothing, iff no name is a prefix of another. |
| Capabilities.PrintedInOrder | cbsd/cbslib/core/permissions.py:196-201 | The names are printed in the order of the members. |
| Capabilities.PrefixNameGrantsMore | cbsd/cbslib/core/permissions.py:104-203 | With names A and AB the printed A is read as both. |
| Capabilities.AuthorizationCapsRoundTrip | cbsd/cbslib/core/permissions.py:67-75 | It does for the authorization flags. |
| Capabilities.RoutesCapsRoundTrip | cbsd/cbslib/core/permissions.py:78-89 | It does for the route flags. |
| ShortIds.MinUniqueComponents | cbsd-rs/cbc/src/periodic.rs:446-454 | The least number of groups that tells all ids apart, or five. |
| ShortIds.FiveGroupsTellApart | cbsd-rs/cbc/src/periodic.rs:433-454 | Distinct UUIDs are told apart by five groups, so the search succeeds. |
| ShortIds.ResolvesIffUnique | cbsd-rs/cbc/src/periodic.rs:293-324 | A prefix resolves to an id iff exactly one listed id starts with it. |
| ShortIds.ResolveOutcomes | cbsd-rs/cbc/src/periodic.rs:293-324 | A prefix is taken as it stands iff listing is forbidden, other failures are passed on, no match and ambiguity are reported exactly when they occur, with the ids that match. |
| ShortIds.MatchingInOrder | cbsd-rs/cbc/src/periodic.rs:303-304 | The candidates come in the order listed. |
| ShortIds.ShortIdResolves | cbsd-rs/cbc/src/periodic.rs:293-324 | A short id that tells UUIDs apart resolves to exactly its task. |
| ShortIds.ShowShortIds | cbsd-rs/cbc/src/periodic.rs:457-490 | The listing shows the shortest ids, each of which resolves to its task. |
| ShortIds.OtherIdsMayBeAmbiguous | cbsd-rs/cbc/src/periodic.rs:293-324 | For ids that are no UUIDs a shown id may be ambiguous. |
| Scopes.CoversIsExact | cbsd-rs/cbsd-server/src/scopes.rs:20-48 | For all patterns and channels: covering means accepting some value iff the star is not inside the name; covering always implies it. |
| Scopes.StarCutsName | cbsd-rs/cbsd-server/src/scopes.rs:20-48 | `ce*` accepts a value of `ces` and does not cover it. |
| Scopes.DocumentedPatterns | cbsd-rs/cbsd-server/src/scopes.rs:15-48 | For the documented patterns the two agree. |
| BuildQueues.BuildQueue.Enqueue | cbsd-rs/cbsd-server/src/queue/mod.rs:110-112 | Appends to the lane of the build's priority. |
| BuildQueues.BuildQueue.EnqueueFront | cbsd-rs/cbsd-server/src/queue/mod.rs:116-118 | Puts first in the lane of the build's priority. |
| BuildQueues.BuildQueue.NextPending | cbsd-rs/cbsd-server/src/queue/mod.rs:121-129 | Takes the first build of the highest lane that has one. |
| BuildQueues.BuildQueue.RemoveById | cbsd-rs/cbsd-server/src/queue/mod.rs:132-140 | Removes the first build of that id from the first lane that has it. |
| BuildQueues.NextIsMostUrgent | cbsd-rs/cbsd-server/src/queue/mod.rs:116-129 | What is taken is of the highest priority waiting, and putting it back restores the queue. |
| Dispatching.NoOvertaking | cbsd-rs/cbsd-server/src/queue/mod.rs:110-129 | While a build waits none behind it in its lane is sent out, whatever is enqueued, revoked or rolled back. |
| Dispatching.NewGoesLast | cbsd-rs/cbsd-server/src/queue/mod.rs:110-112 | A new build stands behind every build of its priority. |
| Dispatching.RolledBackGoesFirst | cbsd-rs/cbsd-server/src/ws/dispatch.rs:380-392 | A build rolled back stands first in its lane. |
| Dispatching.NoWorkerChangesNothing | cbsd-rs/cbsd-server/src/ws/dispatch.rs:92-98 | Without a worker for the head of the queue nothing changes. |
| Dispatching.RefillKeepsOrder | cbsd-rs/cbsd-server/src/queue/recovery.rs:84-137 | Recovery fills each lane with the rows of its priority in the order read. |
| Dispatching.NeverInTwoPlaces | cbsd-rs/cbsd-server/src/ws/dispatch.rs:62-400 | In every interleaving each build waits once, is active, is held by one call, or is gone: exactly one of these. |
| Dispatching.StepKeepsInv | cbsd-rs/cbsd-server/src/ws/dispatch.rs:62-545 | Each step keeps this, and each lane holds only its priority. |
| Dispatching.GoneForGood | cbsd-rs/cbsd-server/src/ws/dispatch.rs:500-545 | A build that is gone does not come back before a restart. |
| Dispatching.BuriedIsExact | cbsd-rs/cbsd-server/src/queue/recovery.rs:29-140 | A build never waits or runs again, over all restarts, iff it is gone and its row is not queued. |
| Dispatching.RevocationIsFinal | cbsd-rs/cbsd-server/src/routes/builds.rs:404-425 | Revoking a queued build keeps it from running again, over all restarts, iff it was in the queue or gone when it was to be removed, and its row does not stay queued because the write failed. |
| Dispatching.StoppedRevocationIsForgotten | cbsd-rs/cbsd-server/src/routes/builds.rs:404-425 | Between the two steps of a revocation nothing is final while the row says queued. |
| Dispatching.RevokedRunsAgain | cbsd-rs/cbsd-server/src/ws/dispatch.rs:359-400 | A run from an empty server sends out a build whose revocation was written. |
| Dispatching.LostUntilRestart | cbsd-rs/cbsd-server/src/ws/dispatch.rs:66-112 | A failed database update loses the build that was taken; a restart brings it back iff its row still says queued and can be read. |
| Dispatching.AbandonedUntilRestart | cbsd-rs/cbsd-server/src/routes/builds.rs:218-234 | A submission that fails after its row was inserted is not enqueued before a restart. |
| Dispatching.StoppedWhileActive | cbsd-rs/cbsd-server/src/queue/recovery.rs:29-140 | In every run a build active when the server stops is failed by recovery and never run again. |
| Dispatching.FinishIsFinal | cbsd-rs/cbsd-server/src/ws/dispatch.rs:500-535 | A reported finish keeps the build from running again iff it was active or gone, and its row does not stay queued because the write failed. |
| Dispatching.StartedIsNotQueued | cbsd-rs/cbsd-server/src/ws/dispatch.rs:327-347 | A build reported started is not revoked as a queued one. |
| Dispatching.RecoveryAgreesWithRows | cbsd-rs/cbsd-server/src/queue/recovery.rs:29-140 | After recovery, rows with unreadable descriptors included, a row is queued iff its build waits, and every other row is terminal. |

## Left out

- Concurrent calls of the Python objects are steps on values; the classes cover one call, or one lock-held section, at a time.
- Tracker.BuildsTracker.NewBuild: the task ids Celery returns are taken to be new.
- Tail.TailFile: other encodings than UTF-8 and other error handlers than the strict one, which nothing in the service asks for.
- ContainerSelect.OrderDoesNotMatter: takes the searched directory to hold one file of that name, as file systems do.
- ConfigSave.NoLeftovers: takes (process id, counter) pairs of the savers known to the run to be unique; a file left by an earlier process of the same id counts as there before.
- Patches.PatchList: patch names come with their number or as malformed; the pattern itself is not modelled, and neither are the version's minor and major forms.
- Patches.ListHasNoDuplicates: takes entries of one directory to have different names, as file systems do.
- Capabilities.Parse: the regular expressions are a parameter, and names are taken in the ASCII letters.
- Dispatching.NeverInTwoPlaces: connections, receipts and acknowledgement timers only decide when a rollback or finish happens, so these may happen at any time here.
- Periodic.EveryInterleavingKeepsInv: loading at start is one step, as the lock makes it; a database that cannot be loaded keeps the service from starting and is not modelled.
- PeriodicRunner.Run: cancellation is a step of the scheduler, not of the loop.
- ConfigSave.Directory.Save: the fallback name for a path without file name is not modelled.
- The cursor returned by the tail of a running build's log.
- The walk up to a root in `find_path_relative_to`, authorization checks over capability lists and script path lookup: they would only add easy members.
- HTTP routes, sign-in and tokens, command lines and terminal output.
- Calls of podman, buildah, skopeo, git, S3, vault and package tools.
- The insides of Celery, Redis, dbm, SQLite, croniter and asyncio, and JSON, YAML and schema validation.
- The server's worker connections: reconnection, draining and the messages of `cbsd-rs/cbsd-proto/src/ws.rs`.
