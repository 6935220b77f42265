# Byte-Battle: a verified model of its protocols

Byte-Battle is a server for timed coding races. Players join a game, submit programs, and the first to solve every
problem of the game wins. This project models the parts of the server where several requests, workers or clocks meet,
and proves what holds in every run of them. `dafny verify dfyconfig.toml` checks all of it.

Every protocol comes in two forms. A transition system has one event per atomic step of the code and speaks about all
interleavings: `ValidRun` says that a sequence of events can happen, `Exec` where it leads, an invariant is proved
step by step, and the theorems quantify over all runs. Beside it a class has the fields and methods of the Go type,
and its methods say in plain terms when each request succeeds, when it fails and what it leaves. The class invariant
of `GameService` is that its rows are those some run of the protocol leaves; every request keeps it, so that whatever
is proved of all runs holds between any two requests. For submissions this rests on `Submission.SubmitAloneIsRun`.

| files | what they model |
|---|---|
| `Slots`, `RateLimit`, `ExecutionService` | one-holder slots and token buckets per user, and their hourly cleanup, each operation one step |
| `SlotRace`, `LimiterRace` | the same at the grain of their map, channel and limiter operations |
| `GameTables`, `GameProtocol` | the rows of games, participants, pinned problems and solutions; every interleaving of the requests on them |
| `GameInvariant`, `GameTheorems`, `GameFaults`, `GameSolutions` | what every run of that protocol keeps, and what it does not |
| `GameRuns`, `GameRace`, `GameRaceTheorems`, `GameRaceDeletes` | runs put together; the protocol on the slots of `SlotRace` |
| `GameService`, `Submission`, `SubmissionService` | the game requests and submissions, each running alone |
| `ExecutorPool`, `ExecutorInvariant`, `ExecutorTheorems`, `ExecutorHistory`, `ExecutorWorker`, `ReadinessLatch` | the container pool: queue, workers, shutdown, readiness |
| `Entrance`, `EntranceCodes`, `EntranceWindow`, `EntranceService` | login by a code sent by mail |
| `Paths`, `Catalog`, `ArtifactStore`, `ArtifactTheorems`, `Uploader`, `UploadLimits`, `UploadRace` | problem versions, artifact directories, the problem cache, upload limits, and those when requests overlap |
| `Output`, `Kebab`, `Extraction` | output comparison, slugs made from titles, the byte budget of archive extraction |

In the game protocol each transaction that locks the game row is one event. A creation is given its id and commits or
rolls back later. A submission is one event per database
statement, its index increment stands outside any transaction, a timeout is a check and a later write, and any
request may be aborted between two steps.

## What the code does not guarantee

Some properties one would expect are false of the code. For each of them the model has a run that shows it and the
exact condition.

* A timeout checks the status and later writes without checking again, so a solo game that was cancelled in between
  becomes finished (`GameFaults.StaleTimeoutFinishesCancelledGame`). A terminal status changes exactly in this way
  (`GameFaults.TerminalChangesExactly`, over whole runs `GameFaults.CancelledUnlessTimedOut`).
* A submission aborted after it counted the last problem and before its finishing transaction leaves its player at the
  end of an active game with nothing left to submit (`GameFaults.AbortCanStrand`). Players are stranded exactly after
  such an abort (`GameFaults.StrandedExactly`) and stay so while the game is active (`GameFaults.StrandedForGood`).
* The slots exclude only as long as the cleanup does not delete a key in use. It looks at the channel and deletes the
  key later, so a second holder gets in when the delete falls inside an acquire (`SlotRace.DeleteInsideAcquire`), and
  also when a whole acquire falls between the look and the delete (`SlotRace.AcquireInsideCleanup`); then one of the
  two releases blocks (`SlotRace.SecondReleaseBlocks`). A delete is safe exactly when no acquire of its key is between
  load and send and every holder has begun to give it back (`SlotRace.DeleteSafeExactly`). The same condition is exact
  for players' indices to stay within the problems (`GameRaceDeletes.DeleteBoundsIndicesExactly`): after any other delete some
  index can pass the end (`GameRaceDeletes.UnquietDeletePassesEnd`), and as long as all deletes are such, the run is one of the
  protocol with single-step slots (`GameRace.QuietRunsAreProtocolRuns`).
* The rate limit holds only as long as the cleanup does not delete a limiter in use. It looks at the tokens and deletes
  the limiter later, so a user can get burst + 1 executions at one moment (`LimiterRace.WindowCanBeExceeded`). A delete
  goes unnoticed exactly when the limiter is still full and no check is between its load and its Allow
  (`LimiterRace.DeleteUnobservableExactly`).
* Joining does not look at the kind of a game, so somebody else can finish a solo game and its creator wins without
  having solved it (`GameFaults.GuestWinsForCreator`); the winner of a solo game has solved everything exactly if the
  finisher was the creator or the creator was at the end already (`GameFaults.SoloWinnerSolvedAllExactly`).
* A solution whose insert fails is only logged. The row of a passed problem is missing exactly if every insert of it
  failed (`GameSolutions.PassedRowMissingExactly`).
* SendCode calls that overlap all pass the cooldown: k of them let k times MaxAttempts comparisons through at one moment
  (`EntranceWindow.OverlappingCallsAddUp`). The bound on comparisons grows by the factor k (`EntranceWindow.WindowBound`).
* Upload requests that overlap all pass the count: k of them leave 9 + k versions of a problem, or 19 + k problems of a
  user (`UploadRace.OverlapReachesVersions`, `UploadRace.OverlapPassesProblems`). The bounds with k in flight are
  9 + k versions and 20 * k problems (`UploadRace.LimitsWithOverlap`).
* An item can stay in the queue of a pool that has shut down, because a worker that gives up on creating a container
  does not drain (`ExecutorTheorems.GivingUpLeavesItem`) and `Run` may enqueue after its check
  (`ExecutorTheorems.LateEnqueueLeavesItem`). In a run that ends with all workers gone every item was answered exactly
  if nothing was enqueued after the last worker had gone and the last worker did not go with items in the queue
  (`ExecutorTheorems.AllAnsweredExactly`).
* The upload limit of ten versions does not count a slug that comes twice in one archive
  (`UploadLimits.RepeatedSlugPassesLimit`). A validated request keeps the limits exactly when versions plus occurrences
  stay within ten for every problem (`UploadLimits.LimitsKeptExactly`).
* `versionStrToInt` reads `v<n>` back as n exactly for positive numbers that fit an int (`Paths.VersionRoundTrip`).

## Model

| member | source | states |
|---|---|---|
| `GameInvariant.StepKeepsInv` | internal/service/game_service.go:41-623 | every event keeps the invariant: indices in 0..n, winner implies finished and participant, creator present, two players in a started multiplayer game, what each submission has read is still so, one submission per user, one solution per key |
| `GameInvariant.StepEvolves` | internal/service/game_service.go:319-577 | every event lets a game only move along its lifecycle, and no event but the user's own increment moves that user's index in a begun game |
| `GameInvariant.SubStable` | internal/service/submission_service.go:62-118 | what a submission has read survives any change by others that leaves its user's index alone |
| `GameInvariant.ProgressKeepsSub` | internal/service/game_service.go:375-433 | each statement of a submission leads to a phase whose knowledge holds in the rows it leaves |
| `GameInvariant.RunKeepsInv` | internal/service/game_service.go:41-623 | the invariant holds, and games only evolve, over every run from a good state |
| `GameTheorems.EveryReachableGame` | internal/service/game_service.go:41-103 | in every reachable state, with slot operations as single steps: a winner is a participant of a finished game, the creator takes part, active and finished multiplayer games have at least two players, every index is within 0..n, and n is 1 to 20 |
| `GameTheorems.GamesOnlyEvolve` | internal/service/game_service.go:127-171 | between any two moments of a run: problems, creator and kind are fixed, status never moves back, a winner never changes, a terminal multiplayer status stays, participants are frozen once the game left pending, no index goes down |
| `GameTheorems.DeletedStaysDeleted` | internal/service/game_service.go:639-658 | after a delete the game does not exist in any later state, whatever creations are in progress |
| `GameTheorems.AtMostOneFinisher` | internal/service/game_service.go:395-433 | over every run at most one of all submissions and completeGame calls reports that it finished a given game |
| `GameTheorems.SubmissionWinnerSolvedAll` | internal/service/game_service.go:375-433 | with slot operations as single steps, whoever finishes a multiplayer game by a submission is its winner with index exactly n, then and in every later state |
| `GameFaults.SoloWinnerSolvedAllExactly` | internal/service/game_service.go:395-433 | a submission that finishes a solo game makes the creator its winner; the creator is at n if and only if the finisher is the creator or the creator was at n before |
| `GameFaults.GuestWinsForCreator` | internal/service/game_service.go:144-157 | there is a run in which another player joins and finishes a solo game and the creator wins at index 0 |
| `GameTheorems.OneSubmissionPerUser` | internal/service/submission_service.go:52-56 | with slot operations as single steps, two submissions of one user are never in flight together |
| `GameTheorems.NextProblemLookupNeverMisses` | internal/service/submission_service.go:165-172 | with slot operations as single steps, after an accepted submission that is not the last, the index read back is the one written, is below n, and the lookup fails only if the game is gone |
| `GameTheorems.ReleaseNeverBlocks` | internal/service/execution_service.go:103-107 | with slot operations as single steps, the deferred release of a submission never blocks |
| `GameTheorems.LeaveUndoesJoin` | internal/service/game_service.go:579-623 | in every reachable state, leaving right after joining is possible and restores every row |
| `GameFaults.TerminalChangesExactly` | internal/service/game_service.go:519-537 | a terminal status changes in a step if and only if the step is a stale timeout on a cancelled game |
| `GameFaults.CancelledUnlessTimedOut` | internal/service/game_service.go:519-577 | over every run from a good state, a cancelled game that still exists at the end is finished if and only if a timeout that had passed its check was applied to it, and still cancelled otherwise |
| `GameFaults.StaleTimeoutFinishesCancelledGame` | internal/service/game_service.go:533-536 | there is a run in which a cancelled game becomes finished |
| `GameFaults.StrandedExactly` | internal/service/game_service.go:375-433 | in every reachable state a player of an active game is at the end with nothing in flight to finish it if and only if a closing submission of theirs was aborted |
| `GameFaults.QuietActiveGameBelowEnd` | internal/service/game_service.go:375-433 | without such aborts an active game with no submission of a player in flight has that player strictly below n |
| `GameFaults.StrandedForGood` | internal/service/game_service.go:375-392 | a stranded player stays stranded in every continuation as long as the game is active |
| `GameFaults.AbortCanStrand` | internal/service/game_service.go:376-396 | there is a run that strands a player, and its last event is the abort |
| `GameSolutions.OnRecordExactly` | internal/service/submission_service.go:77-86 | over every run the row of a user, an existing game and a problem is there if and only if some insert of it went through |
| `GameSolutions.PassedRowMissingExactly` | internal/service/submission_service.go:77-88 | over every run a problem below a player's index had an insert tried, and its row is missing if and only if all inserts of that very key failed |
| `GameSolutions.PassedProblemsAreOnRecord` | internal/service/submission_service.go:77-88 | so if no insert of that user, game and problem fails, the problem has a passed solution on record |
| `GameSolutions.OneRowPerProblem` | internal/db/sqlc/solutions.sql.go:68-72 | over every run there is at most one row per user, game and problem |
| `GameSolutions.RowsCarryPinnedVersions` | internal/service/submission_service.go:77-83 | over every run, failing inserts or not, a row that names a game carries problem and version of one of the pins of that game, which still exists |
| `GameSolutions.RowVersionIsPinned` | internal/service/submission_service.go:77-88 | a problem's row carries exactly the pinned version, if equal slugs of the game have equal versions |
| `GameServices.GameService.CreateGame` | internal/service/game_service.go:41-125 | succeeds exactly for 1 to 20 non-empty slugs of problems that have a current version and are not hidden, or are owned by the creator; the game is new, pending, without a winner, with the creator at index 0, under an id never used; it pins, in order, the current version of each slug with the path of its row, and so never a hidden problem of another user; each error with its condition; the rows stay reachable by protocol runs and games only evolve |
| `GameServices.GameService.ResolveAll` | internal/service/game_service.go:76-125 | finds pins for all slugs exactly if each is that of a problem with a current version that is not hidden or is owned by the creator; each pin is that version with the path of its row, which starts with the slug |
| `GameRuns.CreationKeeps` | internal/service/game_service.go:54-103 | a creation that gets its id and commits, or rolls back, keeps the rows among those that runs of the protocol leave |
| `GameRuns.TransactionKeeps` | internal/service/game_service.go:41-171 | a request that is one transaction keeps the rows among those that runs of the protocol leave with nothing in flight, and games only evolve |
| `GameRuns.TimeoutKeeps` | internal/service/game_service.go:519-537 | the same for a timeout whose check and write nothing separates |
| `GameServices.GameService.JoinGame` | internal/service/game_service.go:127-171 | succeeds exactly for a pending game the player is not in, adds that player at index 0 and nothing else; each error with its exact condition; it succeeds exactly when the event of the protocol can happen; the rows stay reachable by protocol runs and games only evolve |
| `GameServices.GameService.LeaveGame` | internal/service/game_service.go:579-623 | succeeds exactly for a participant other than the creator of a pending game and removes only that player; each error with its exact condition; it succeeds exactly when the event of the protocol can happen; the rows stay reachable by protocol runs and games only evolve |
| `GameServices.GameService.StartGame` | internal/service/game_service.go:319-366 | succeeds exactly for the creator of a pending game with two players, or one if solo; the started game has no winner and everybody at index 0; each error with its exact condition; it succeeds exactly when the event of the protocol can happen; the rows stay reachable by protocol runs and games only evolve |
| `GameServices.GameService.CancelGame` | internal/service/game_service.go:539-577 | succeeds exactly for the creator of a pending or active game, which then has no winner; each error with its exact condition; it succeeds exactly when the event of the protocol can happen; the rows stay reachable by protocol runs and games only evolve |
| `GameServices.GameService.CompleteGameAsWinner` | internal/service/game_service.go:472-517 | succeeds exactly for a participant of an active game; the game had no winner before and has this one for good; each error with its exact condition; it succeeds exactly when the event of the protocol can happen; the rows stay reachable by protocol runs and games only evolve |
| `GameServices.GameService.CompleteGame` | internal/service/game_service.go:458-470 | only the creator names a winner: succeeds exactly for the creator of an active game and one of its participants; the rows stay reachable by protocol runs and games only evolve |
| `GameServices.GameService.TimeoutGame` | internal/service/game_service.go:519-537 | run alone, succeeds exactly for the creator of an active solo game, which ends without a winner; each error with its exact condition; it succeeds exactly when the event of the protocol can happen; the rows stay reachable by protocol runs and games only evolve |
| `GameServices.GameService.DeleteGame` | internal/service/game_service.go:639-658 | the creator's delete removes the game and takes its id, and nothing else, out of the solutions that name it; nobody else's changes anything; the rows stay reachable by protocol runs and games only evolve |
| `GameServices.GameService.HandleAcceptedSubmission` | internal/service/game_service.go:375-433 | run alone: the index goes up by one, and at the end an active game gets its winner, a game no longer active is reported as finished already |
| `GameServices.GameService.InsertSolution` | internal/db/sqlc/solutions.sql.go:68-72 | the row is added at the end unless one of the same user, game and problem exists |
| `Submission.SubmitAloneMeans` | internal/service/submission_service.go:52-178 | an undisturbed submission fails exactly when the player has no problem or it does not load; an accepted one moves the player by one, the last one finishes the game with its winner, and nothing else changes but the saved solution |
| `Submission.SubmitAloneIsRun` | internal/service/submission_service.go:52-89 | from any state with the slot free, that submission is one of the protocol's runs and leaves the slot free and all other requests where they were |
| `Submission.SubmitKeepsReachable` | internal/service/submission_service.go:52-89 | an undisturbed submission keeps the rows among those that runs of the protocol leave with nothing in flight |
| `Submission.SettlesAs` | internal/service/submission_service.go:148-178 | from any rows, the protocol's statements after saving come to: player moved, then next problem, already finished, or won |
| `Submission.FindsProblem` | internal/service/submission_service.go:91-118 | the three reads find the problem pinned at the player's index exactly when the game is active and the index is in range |
| `SubmissionServices.ExecuteAgainstProblem` | internal/service/submission_service.go:120-146 | accepted if and only if every test, run on its own input, did not fail and printed its expected output, compared by canonical lines; otherwise the failed test is the least index at which that is not so; the output is that of the last test run |
| `SubmissionServices.SubmissionService.GetCurrentProblemForSubmission` | internal/service/submission_service.go:91-118 | answers a fresh load of the directory of the version pinned at the player's index in an active game; each error with its exact condition |
| `SubmissionServices.SubmissionService.CompleteAcceptedSubmission` | internal/service/submission_service.go:148-178 | the rows and the answer are those of the protocol after saving |
| `SubmissionServices.SubmissionService.Submit` | internal/service/submission_service.go:52-89 | refused exactly while the slot is held, rate limited exactly when no token is available, the set of held slots is the same afterwards and the release returns; otherwise it fails exactly if the player has no problem or it does not load, each error with its condition, and is accepted exactly if every test of the pinned problem, run on its own input, did not fail and printed its expected output; a rejection names the first that did not; rows and answer are those of the protocol, and the rows stay reachable by protocol runs |
| `Slots.SlotsRefineHeldSet` | internal/service/execution_service.go:62-107 | over every run the slots answer as a set of held pairs that cleanup does not touch; no release by a holder blocks |
| `SlotRace.QuietRunsExclude` | internal/service/execution_service.go:62-107 | at the grain of map and channel operations, runs whose deletes find no acquire of their key under way and no holder that has not begun its release keep one holder per pair, and no release blocks in either of its steps |
| `SlotRace.SendSucceedsExactly` | internal/service/execution_service.go:92-101 | in such runs an acquire succeeds exactly when nobody owns the channel it loaded, and then nobody holds its pair |
| `SlotRace.UnquietDeleteAdmitsTwo` | internal/service/execution_service.go:62-71 | every delete of a key that is held or being acquired has a continuation with two holders |
| `SlotRace.DeleteInsideAcquire` | internal/service/execution_service.go:62-101 | a given run of six events: the acquire of request 1 is pending at the delete, and in the end requests 1 and 2 hold the key |
| `SlotRace.AcquireInsideCleanup` | internal/service/execution_service.go:62-101 | a given run of ten events: no acquire is pending when the cleanup looks nor when it deletes, and in the end requests 1 and 2 hold the key |
| `SlotRace.SecondReleaseBlocks` | internal/service/execution_service.go:103-107 | from there the first release takes the other's token and the second release blocks |
| `SlotRace.DeleteSafeExactly` | internal/service/execution_service.go:62-71 | a delete keeps all quiet continuations exclusive if and only if no acquire of its key is between load and send and nobody holds it without having begun to give it back |
| `GameRace.QuietRunsAreProtocolRuns` | internal/service/execution_service.go:62-107 | the trace of every run of the game protocol on the fine-grained slots whose deletes are quiet, with a Submit for each successful acquire and a Release where each release begins, is a run with single-step slots that ends in the same rows and the same submissions |
| `GameRaceTheorems.QuietRunsBoundIndices` | internal/service/submission_service.go:52-118 | in such runs every index is at most n and a user never has two submissions in flight that have not begun their release |
| `GameRaceTheorems.QuietAtMostOneFinisher` | internal/service/game_service.go:395-433 | in such runs at most one event reports finishing a given game |
| `GameRaceTheorems.QuietStrandedExactly` | internal/service/game_service.go:375-433 | in such runs a player of an active game is stranded if and only if a closing submission of theirs was aborted |
| `GameRaceTheorems.QuietReleasesNeverBlock` | internal/service/execution_service.go:103-107 | and a submission that is done can give its slot back in both steps |
| `GameRaceDeletes.UnquietDeletePassesEnd` | internal/service/game_service.go:375-392 | from every good state, every delete of a key that is held or being acquired has a continuation without further such deletes in which an index passes the number of problems |
| `GameRaceDeletes.DeleteBoundsIndicesExactly` | internal/service/execution_service.go:62-71 | a delete keeps every index within the problems in all quiet continuations if and only if no acquire of its key is between load and send and every holder has begun to give it back |
| `GameRaceDeletes.IndexCanPassEnd` | internal/service/game_service.go:375-392 | from the start: after a load, the look and the delete inside that acquire, an index can pass the number of problems with no further such delete |
| `RateLimit.WindowBound` | internal/service/execution_service.go:73-78 | with checks and evictions as single steps, over every run a user's allowed executions in any window are at most burst + rate times its length |
| `RateLimit.AllowedExactly` | internal/service/execution_service.go:73-78 | with checks and evictions as single steps, after every run a request is allowed if and only if no window that ends with it would then hold more than burst + rate times its length executions of its user |
| `RateLimit.AvailableIsLeastRoom` | internal/service/execution_service.go:73-112 | after every run the tokens a user would find are the least that any window ending now leaves of burst + rate times its length |
| `RateLimit.EvictionUnobservable` | internal/service/execution_service.go:55-61 | with checks and evictions as single steps, over every run every request gets the verdict of a service that never evicts |
| `LimiterRace.QuietEvictionUnobservable` | internal/service/execution_service.go:55-78 | at the grain of map and limiter operations, in runs whose deletes find the limiter full and no check between load and Allow, every check gets the verdict of a service that never evicts |
| `LimiterRace.QuietWindowBound` | internal/service/execution_service.go:55-112 | in such runs a user's allowed executions in any window are at most burst + rate times its length |
| `LimiterRace.QuietAllowedExactly` | internal/service/execution_service.go:55-112 | in such runs a check is allowed if and only if no window that ends with it would then hold more than burst + rate times its length executions of its user |
| `LimiterRace.DeleteUnobservableExactly` | internal/service/execution_service.go:55-61 | with a burst of at least one, a delete leaves all quiet continuations with the verdicts of the never-evicting service if and only if the limiter is full at the delete and no check of its user is between load and Allow |
| `LimiterRace.UnquietDeleteShows` | internal/service/execution_service.go:55-78 | from every good state, every other delete has a continuation whose verdicts differ |
| `LimiterRace.WindowCanBeExceeded` | internal/service/execution_service.go:55-61 | for every burst of at least one and every rate, after a load, the look, an Allow and the delete, some continuation gives burst + 1 executions at one moment |
| `RateLimit.StepCost` | internal/service/execution_service.go:73-112 | an event costs its user one token exactly if it is an allowed request, and nobody else anything |
| `ExecutionServices.ExecutionService.CheckRateLimit` | internal/service/execution_service.go:73-112 | allowed exactly if the burst is at least one and the tokens kept plus rate times the time since are at least one, an absent limiter counting as full; no other user is touched |
| `ExecutionServices.ExecutionService.TryAcquireSlot` | internal/service/execution_service.go:92-101 | succeeds exactly when the pair is not held and adds it to the held set |
| `ExecutionServices.ExecutionService.ReleaseSlot` | internal/service/execution_service.go:103-107 | returns exactly if the pair is held or unknown and blocks otherwise; takes the pair, and only it, out of the held set |
| `ExecutionServices.ExecutionService.RunCleanup` | internal/service/execution_service.go:55-71 | drops exactly the full limiters and the idle slots of users left without one; no later verdict and no held slot changes |
| `ExecutorTheorems.ItemsConserved` | internal/executor/docker_executor.go:280-335 | over every run an enqueued item is in exactly one of queued, executing, answered, has at most one result, and the queue holds at most six items per worker |
| `ExecutorTheorems.OneHolderPerItem` | internal/executor/docker_executor.go:280-305 | no two workers hold the same item |
| `ExecutorTheorems.SendNeverBlocks` | internal/executor/docker_executor.go:282-300 | a worker that holds an item can always send its result, even if the caller left, because nothing was ever sent on the item's channel |
| `ExecutorTheorems.DrainAnswersWhatItRemoves` | internal/executor/docker_executor.go:296-305 | when a drain loop returns the queue is empty and every item it removed has had exactly the shutdown answer |
| `ExecutorTheorems.ContainersConserved` | internal/executor/docker_executor.go:234-294 | every container ever created is owned by exactly one worker or has had removal requested exactly once, never both |
| `ExecutorTheorems.ExitedOwnsNothing` | internal/executor/docker_executor.go:258-294 | once all workers have exited every container created has had its removal requested |
| `ExecutorTheorems.ItemsStartClean` | internal/executor/docker_executor.go:280-287 | an item starts in a container that is new or was cleaned since its last item |
| `ExecutorTheorems.LateDrainAnswersAll` | internal/executor/docker_executor.go:289-305 | if a drain ends and nothing is enqueued afterwards, every item is answered once all workers have exited |
| `ExecutorTheorems.AllAnsweredExactly` | internal/executor/docker_executor.go:258-327 | for every run that ends with all workers gone: every item is answered if and only if no item was enqueued after the last worker had gone and the last worker did not go while items were queued |
| `ExecutorTheorems.GivingUpLeavesItem` | internal/executor/docker_executor.go:264-266 | there is a run whose last event is the only worker, without a container, giving up while an item is queued, and the item stays without an answer |
| `ExecutorTheorems.LateEnqueueLeavesItem` | internal/executor/docker_executor.go:314-327 | there is a run whose last event is an enqueue after the shutdown, when the last worker has drained the queue and gone, and the item stays without an answer |
| `ExecutorHistory.FirstInFirstOut` | internal/executor/docker_executor.go:280-335 | over every run items leave the queue in the order in which they were enqueued |
| `ExecutorHistory.AnswersTellHistory` | internal/executor/docker_executor.go:280-305 | over every run an answered item was executed if and only if a worker took it to execute it, and was told of the shutdown if and only if a drain took it |
| `ExecutorHistory.ItemsStartWhereCheckPassed` | internal/executor/docker_executor.go:280-287 | over every run an item starts in a container in which no item ran before, or that was cleaned and found running after the last one |
| `ExecutorHistory.DirtyExactly` | internal/executor/docker_executor.go:280-287 | over every run a container is dirty if and only if an item was started in it and no clean command has succeeded since |
| `ExecutorHistory.CheckedContainerIsKept` | internal/executor/docker_executor.go:234-256 | a container that was cleaned and found running is kept for the next item |
| `ExecutorHistory.WorkersStayUntilShutdown` | internal/executor/docker_executor.go:234-294 | before the shutdown no worker exits or turns an item away |
| `ExecutorHistory.CheckedRunGoesOn` | internal/executor/docker_executor.go:308-327 | a Run past its check never blocks: it is enqueued exactly if fewer than six items per worker are queued, and overloaded otherwise |
| `ExecutorHistory.RunsAccounted` | internal/executor/docker_executor.go:308-327 | over every run each Run that passed its check is one item, one overload, or still on its way |
| `ExecutorHistory.LateEnqueuesBounded` | internal/executor/docker_executor.go:314-327 | after the shutdown no more items are enqueued than calls had passed their check by then |
| `ExecutorInvariant.StepKeepsInv` | internal/executor/docker_executor.go:206-335 | every event keeps items, containers and drains in order |
| `ExecutorWorker.LangPool.constructor` | internal/executor/docker_executor.go:206-217 | the queue has six places per worker, and a size that is not positive counts as three |
| `ExecutorWorker.LangPool.Offer` | internal/executor/docker_executor.go:320-327 | an item is taken exactly when there is room, at the end of the queue and with an empty result channel |
| `ExecutorWorker.LangPool.DrainQueueWithShutdown` | internal/executor/docker_executor.go:296-305 | leaves the queue empty; exactly what was queued gets the shutdown answer, once |
| `ExecutorWorker.LangPool.ProcessNextItem` | internal/executor/docker_executor.go:279-294 | either answers the head of the queue and keeps the container exactly if cleaned and running, or drains, giving exactly the queued items the shutdown answer, and stops |
| `ExecutorWorker.AcquireContainer` | internal/executor/docker_executor.go:258-277 | every container created on the way is removed again except the one returned; a container is returned exactly if one comes up before shutdown is seen |
| `ReadinessLatch.CountsPrimedLanguages` | internal/executor/docker_executor.go:194-204 | over every run of swaps, adds and stores the counter plus the workers between swap and add is the number of primed languages, and ready implies all are primed |
| `ReadinessLatch.ReadyForever` | internal/executor/docker_executor.go:194-232 | once all languages are primed and no notification is in progress the executor is ready and stays so |
| `ReadinessLatch.ReadyInTheEnd` | internal/executor/docker_executor.go:194-204 | once all languages are primed the notifications in progress can end without a further swap, and then the executor is ready |
| `EntranceCodes.CodeComparedAtMostMax` | internal/service/auth_service.go:119-145 | under every interleaving no issued code is compared more than MaxAttempts times |
| `EntranceCodes.NewCodeGetsAllAttempts` | internal/service/auth_service.go:75-145 | whenever a SendCode gets to its upsert, some continuation compares the new code exactly MaxAttempts times, so the bound is reached by every code |
| `EntranceCodes.CodesAtMostChecks` | internal/service/auth_service.go:75-107 | over every run no more codes are issued than checks were passed |
| `EntranceCodes.CooldownAfterIssue` | internal/service/auth_service.go:80-88 | after a code is issued a check that reads its row passes exactly from min(60 s, CodeTTL) later on, and one whose read fails passes always |
| `EntranceWindow.WindowBound` | internal/service/auth_service.go:75-145 | in every run with at most k SendCode calls in flight, a window of length T without deletes holds at most MaxAttempts * k * (T / c + 2) comparisons for an email, with c = min(60 s, CodeTTL); k is 1 when calls do not overlap |
| `EntranceWindow.OverlappingCallsAddUp` | internal/service/auth_service.go:80-107 | for every k there is a run in which k calls pass together and k * MaxAttempts comparisons happen at one moment |
| `EntranceWindow.CodesAreSpaced` | internal/service/auth_service.go:80-88 | after a code is issued the check passes exactly from min(60 s, CodeTTL) later on |
| `EntranceServices.EntranceService.SendCode` | internal/service/auth_service.go:75-117 | succeeds exactly for a valid email outside the cooldown whose mail goes out; each error with its exact condition; then a new code with no attempts, gone again if the mail fails; no other email touched |
| `EntranceServices.EntranceService.VerifyCode` | internal/service/auth_service.go:119-166 | compares exactly when there is a row, not expired, with attempts left; succeeds exactly if the code then matches and user and session do not fail; each error with its exact condition; every comparison is counted, and success deletes the row |
| `Catalog.UploadVersionOk` | internal/problems/uploader.go:113-174 | an upload to a user-owned problem with versions 1..k gives it 1..k+1 with k+1 current, and keeps the rest of the catalog in order |
| `Catalog.BuiltInVersionOk` | internal/problems/uploader.go:113-174 | a version added to a problem nobody owns leaves the user-owned ones in order |
| `Catalog.UploadNewOk` | internal/problems/uploader.go:50-95 | creating a problem keeps the catalog in order |
| `Catalog.FirstVersion` | internal/problems/uploader.go:69-91 | a new problem has exactly version 1 and it is current |
| `ArtifactTheorems.StepKeepsInv` | internal/problems/uploader.go:97-183 | commit, move, invalidate, lookup, load, store, pin and restart keep catalog, directories, cache and pins in order, and nothing written changes |
| `ArtifactTheorems.VersionsAreOneToCurrent` | internal/problems/uploader.go:137-174 | in every run a user-owned problem has the versions 1..k, each once, and k is the current one |
| `ArtifactTheorems.CacheAgreesWithDisk` | internal/problems/store.go:49-66 | in every interleaving every cached problem, and every problem about to be cached, equals a fresh load of its path |
| `ArtifactTheorems.ArtifactsWrittenOnce` | internal/problems/uploader.go:146-179 | a directory is only moved to a free path, and what is at a path never changes |
| `ArtifactTheorems.PinnedProblemsNeverChange` | internal/service/game_service.go:76-89 | whatever is uploaded later, a game's pinned versions, their rows and the directories behind them stay the same |
| `ArtifactTheorems.GamePinsWhatIsCurrent` | internal/service/game_service.go:76-89 | a game pins, in order, the version that is current for each slug when it is created, and has the same ones after any later uploads |
| `ArtifactTheorems.CommitNamesItsDirectory` | internal/problems/uploader.go:137-179 | the version an upload commits becomes the current one, and the path its content is about to move to is that of this version's row |
| `ArtifactTheorems.UploadIsServed` | internal/problems/uploader.go:97-104 | once an upload has moved its directory, every load of its path gives its content, then and ever after |
| `ArtifactTheorems.GetByPathAlone` | internal/problems/store.go:49-66 | a cache miss followed by an undisturbed load leaves that problem in the cache and changes nothing else |
| `ArtifactTheorems.UploadAlone` | internal/problems/uploader.go:97-183 | an uninterrupted upload leaves the next version, its content at that version's path, which was free, and no cache entry for it, and nothing else |
| `ArtifactTheorems.FailuresLeaveNoTrace` | internal/problems/uploader.go:113-186 | a failure in flight leaves catalog, directories, cache and pins alone, and a restart empties the cache and keeps the rest |
| `ArtifactTheorems.MoveStep` | internal/problems/uploader.go:176-183 | a committed upload finds its target free |
| `Uploaders.Store.GetByPath` | internal/problems/store.go:49-101 | answers what a fresh load answers and remembers it: a problem exactly if the directory has a non-empty title, a statement and at least one test, with that title, statement and all of its tests, under the slug of its path |
| `Uploaders.Uploader.MaxVersion` | internal/problems/uploader.go:141-144 | the largest version number of the problem, or 0 if it has none |
| `Uploaders.Uploader.UploadNewVersion` | internal/problems/uploader.go:113-186 | the number after the largest is committed and its directory is in place unless the move fails; for a user-owned problem that is the one after the current and its path was free; catalog, directories and cache stay in order |
| `Uploaders.Uploader.UploadProblem` | internal/problems/uploader.go:31-107 | the first free of ten candidates becomes the slug of a new problem with version 1; it fails exactly when all are taken; catalog, directories and cache stay in order |
| `UploadLimits.ValidateUploadBatch` | internal/service/problem_service.go:140-180 | accepts exactly the batches whose slugs are all those of problems of the user with fewer than ten versions and whose new problems leave the user with at most twenty; the error is that of the first slug that is refused, or of the new problems if none is |
| `UploadLimits.RequestCounts` | internal/service/problem_service.go:182-212 | a request adds to an existing problem one version per occurrence of its slug |
| `UploadLimits.UserCounts` | internal/service/problem_service.go:170-178 | a request adds to its user one problem per item without a slug, and to nobody else any |
| `UploadLimits.OthersUntouched` | internal/service/problem_service.go:155-160 | a validated request leaves the row and the versions of every problem that its user does not own as they were |
| `UploadLimits.LimitsKeptExactly` | internal/service/problem_service.go:140-180 | a validated request keeps both limits if and only if versions plus occurrences stay within ten for every problem |
| `UploadLimits.DistinctSlugsKeepLimits` | internal/service/problem_service.go:140-180 | with distinct slugs both limits hold after a validated request |
| `UploadLimits.RepeatedSlugPassesLimit` | internal/service/problem_service.go:161-167 | for every problem with nine versions a validated request with its slug twice leaves eleven |
| `UploadLimits.LimitsHoldOverRequests` | internal/problems/validator.go:26-27 | over every sequence of such requests, one after the other, no user has more than 20 problems and no problem more than 10 versions |
| `UploadLimits.VersionsComeFromOwner` | internal/service/problem_service.go:140-212 | over every sequence of accepted requests the versions a problem gets are exactly those its owner asked for; without a request of its owner its row and versions stay as they are |
| `UploadRace.LimitsWithOverlap` | internal/service/problem_service.go:140-212 | over every run with at most k requests between check and end, each with distinct slugs, no user has more than 20 * k problems and no problem more than 9 + k versions |
| `UploadRace.OnlyOwnersAddVersions` | internal/service/problem_service.go:140-212 | however requests overlap, the versions a problem gets are exactly those added by requests of its owner, nobody else adds any, and without a request of its owner its row and versions stay as they are |
| `UploadRace.OverlapReachesVersions` | internal/service/problem_service.go:161-167 | for every problem with nine versions and every k there is a run with k requests in flight that leaves 9 + k |
| `UploadRace.OverlapPassesProblems` | internal/service/problem_service.go:170-178 | for every user with 19 problems and every k there is a run with k requests in flight that leaves 19 + k |
| `Paths.SlugRecovered` | internal/problems/store.go:94 | splitting slug/v<n> gives the slug back |
| `Paths.SlugOfExactly` | internal/problems/store.go:94 | the slug of a path is the part before its first slash, or all of it if there is none |
| `Paths.ArtifactPathInjective` | internal/problems/uploader.go:146 | equal artifact paths have equal slugs and equal versions |
| `Paths.DecimalRoundTrip` | internal/problems/uploader.go:146 | reading the decimal rendering of a number gives the number, and a positive number has no leading zero |
| `Paths.VersionRoundTrip` | internal/problems/seeder.go:224-230 | v<n> reads back as n if and only if n is a positive int |
| `Paths.UploadedDirReadsBack` | internal/problems/seeder.go:154-172 | the directory an upload writes for version n is a version directory that reads back as n |
| `Paths.VersionReadExactly` | internal/problems/seeder.go:224-230 | a name is read as a version n above 1 if and only if it is a decimal number equal to n that fits an int, with or without a leading v and a plus sign |
| `Paths.LatestVersionDir` | internal/problems/seeder.go:154-172 | for any listing, a version directory of maximal version, or none exactly if there is none |
| `Kebab.KebabIsSlugBase` | internal/problems/uploader.go:190-206 | for any title and any Unicode tables: at most 40 characters of [a-z0-9-], no leading, trailing or doubled dash |
| `Kebab.KebabFixedPoints` | internal/problems/uploader.go:190-206 | the conversion is idempotent, and its fixed points are exactly the well-formed slug bases |
| `Kebab.PlainTitles` | internal/problems/uploader.go:190-206 | a title of ASCII words with single spaces becomes the same text in small letters with a dash for each space; if that has more than 40 characters, the part before the last dash of the first 40 is left, or those 40 if they have no dash |
| `Kebab.SeparatorsAlike` | internal/problems/uploader.go:191-198 | whatever separates two words, if it has no ASCII letter or digit, makes no difference |
| `Kebab.OuterSeparatorsIgnored` | internal/problems/uploader.go:198-199 | nor does what comes before the first word or after the last |
| `Kebab.GeneratedSlugSplits` | internal/problems/uploader.go:208-228 | a generated slug is the base made from the title, or "problem" if that is empty, a dash and the suffix; it has no slash, at most 45 characters, and is recovered from its artifact paths |
| `Output.NormalizeOutput` | internal/problems/store.go:143-149 | the in-place loop computes the normal form, which is the join of the canonical lines |
| `Output.NormalizeIsCanonical` | internal/problems/store.go:143-149 | the normal form is the join of the canonical lines: each the longest part of its line that does not end in a space, tab or CR, without the blank lines at the end |
| `Output.CanonicalIsUnique` | internal/problems/store.go:143-149 | for every text, a sequence of lines is its lines without their blank tails and without the blank lines at the end if and only if it is the one computed |
| `Output.MatchExactly` | internal/problems/store.go:151-153 | a match holds if and only if, up to some line, the lines of the two texts are equal character by character but for a tail of spaces, tabs and CRs of each, and all further lines of either are blank; equivalently the canonical lines are equal, so matching is an equivalence |
| `Output.TrimBlanksExactly` | internal/problems/store.go:146 | what is left of a line is a prefix of it, all that is cut is spaces, tabs and CRs, and the rest does not end in one |
| `Output.NormalizeIdempotent` | internal/problems/store.go:143-149 | normalizing twice is normalizing once |
| `Output.AppendedWhiteSpaceIgnored` | internal/problems/store.go:143-149 | appending any mix of space, tab, CR and newline does not change the normal form |
| `Output.SplitJoin` | internal/problems/store.go:144-148 | splitting undoes joining |
| `Output.SplitExactly` | internal/problems/store.go:144 | the lines of a text are the one non-empty sequence of newline-free pieces that joins to it |
| `Output.JoinConcat` | internal/problems/store.go:148 | joining puts exactly one newline between two texts |
| `Extraction.ExtractEntry` | internal/problems/validator.go:285-304 | writes at most one byte more than what remains, and exactly the whole entry when it reports success within the budget; an entry that is too long writes exactly one byte too many and fails only if the close does; fails exactly as the stream and the file system do |
| `Extraction.ExtractTarGz` | internal/problems/validator.go:237-271 | never writes more than maxBytes + 1 bytes; succeeds if and only if no entry is refused, cannot be made, breaks or fails to close, and they fit together, and then none is truncated; an error is that of the first entry that spoils the archive, too big exactly if nothing else is wrong with it up to the byte at which the budget is passed; the budget passed on is never negative |
| `Extraction.ExtractZipEntry` | internal/problems/validator.go:339-378 | fails exactly if the file is refused, cannot be made, breaks, fails to close or does not fit, says which, writes at most one byte too many, and on success the whole file |
| `Extraction.ExtractZip` | internal/problems/validator.go:328-353 | succeeds if and only if every file that is not a symlink can be made and written in full and they fit together; never writes more than maxBytes + 1 bytes and passes over symlinks |

## Left out

- HTTP handlers, middleware, generated API code, the frontend, the websocket hub, sessions, users, mail texts and configuration: plumbing and one-branch checks.
- Docker, bcrypt, mail, gzip, tar and zip decoding, hashing, random numbers and the file system: oracles that may fail, passed in as parameters or left to the event that happens.
- Database errors other than a missing row in the request classes: they abort a request, and the protocol has an event for that at every step of a submission.
- Listing and pagination queries, access tokens, visibility of games, time limits as a number: they do not touch the modelled state.
- Deletion of users, whose effect on their games and solutions is not modelled.
- More than one server process: slots and limiters are in memory, so exclusion across processes does not hold in the code either.
- Wrap-around of the 32-bit counters and ids: indices stay within 20, and ids come from a SERIAL column that fails rather than wraps.
- Seeding of built-in problems: it is over before the first request, and the store theorems start from any catalog in good order.
- `safeTarget` and path cleaning: an entry with a refused path is an entry that fails.
- getOrCreateUser: a success or a failure of `VerifyCode`.
- ExecutorPool: models one language pool; pools of different languages share only the readiness latch. Warm-up commands and containers left by an earlier process are not modelled.
- GameSolutions.RowVersionIsPinned: says nothing of a game that pins one problem in two versions, where the first saved row stays.
- EntranceWindow.WindowBound: assumes that no read of the row fails, which would skip the cooldown, and no successful verification and no failing mail in the window.
- UploadLimits.LimitsHoldOverRequests: takes each upload request as one step; `UploadRace.LimitsWithOverlap` is the form for requests that overlap.
- GameTheorems.OneSubmissionPerUser: takes acquire, release and the cleanup of a key as single steps, which is not the grain of the code; so do the invariant behind it, `GameTheorems.EveryReachableGame` in its index bound, `GameTheorems.SubmissionWinnerSolvedAll`, `GameTheorems.NextProblemLookupNeverMisses`, the results of `GameFaults` and those of `GameSolutions` on passed problems. On the slots as they are they hold of the traces of runs whose deletes are quiet, by `GameRace.QuietRunsAreProtocolRuns`.
- GameTheorems.ReleaseNeverBlocks: the same; the other form is `GameRaceTheorems.QuietReleasesNeverBlock`.
- GameRace: keys of the kind for plain executions are not acquired in it; they share no channel with submissions.
- RateLimit.WindowBound: takes a check and an eviction as single steps; `LimiterRace.QuietWindowBound` is the form at the grain of the code. Tokens and times are real numbers and the clock does not go back; floating-point rounding and an infinite rate are not modelled.
- RateLimit.EvictionUnobservable: the same; the other form is `LimiterRace.QuietEvictionUnobservable`.
- RateLimit.AllowedExactly: the same; the other form is `LimiterRace.QuietAllowedExactly`.
- Uploaders.Uploader.UploadNewVersion: a rename onto a directory that is already there, possible for a built-in problem only, replaces it or fails as its parameter says.
- Uploaders.Uploader.UploadProblem: models an archive without a slug; one with a slug is `UploadNewVersion`. The slug is looked up and inserted in one step, and the ten candidates are a parameter.
- ExecutorWorker.AcquireContainer: takes the outcomes of its attempts as a finite list that ends the loop; with Docker failing forever and no shutdown the code retries forever.
- Paths.LatestVersionDir: sorts by insertion, and says nothing about which of several directories with the same number is returned, as the original's sort is not stable.
- Kebab.KebabFixedPoints: takes the Unicode classification as a table of which only the ASCII letters, digits, the dash and, for `Kebab.PlainTitles`, the space are fixed.
- Output.MatchExactly: strings are sequences of characters; a byte sequence that is not valid UTF-8 is compared as its characters.
