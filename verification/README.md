# Interbase runtime: verified model

A Dafny model of the stateful core of the Interbase command line and remote runtime, with proofs of what that core
is for. `dafny verify dfyconfig.toml` checks all of it.

| module | component | form |
|---|---|---|
| `GoalSlots`, `GoalRuns` | one session of the thread goal manager, and every run of it | values |
| `GoalCalls` | what each single call leaves and answers | values |
| `GoalManager` | the goal manager object with its store and its two step maps | class |
| `HostGoals` | the remote host's smaller goal manager | values |
| `GoalPrompts` | escaping, template filling and framing of goal prompts | values |
| `TurnIds`, `QueuedTurns`, `PersistedTurns` | the session turn coordinator in its two modes, one step per stretch between awaits | transition system |
| `TurnCoordinator` | the coordinator object in queue mode | class |
| `StateStore` | processes, crashes, lock file, temporary files and quarantine of the JSON state store | transition system |
| `StoreCrashes`, `StoreUpdates`, `StoreValues` | what every run of the store keeps, what its updates keep, and which value they build up | transition system |
| `QuarantineCleanup`, `StableSort` | retention of quarantine files; the stable sort it and device derivation use | loops |
| `ResponseLifecycle` | validator and transition function of normalized response events | values |
| `GitStatusPool` | the worker pool that shares one byte budget | transition system |
| `Porcelain` | the parser for `git status --porcelain=v1 --branch -z`, against a printer | loop |
| `TrustedDevices` | trusted devices from audit events, deduplication, merging | loops |
| `RuntimeContext` | runtime context from environment variables and back | values |
| `SigningPayloads` | the four canonical signing payloads | values |
| `Text` | splitting, joining, trimming, numerals | values |

Clock readings, generated ids, the results of awaited calls, file contents, the file system's answer to a sandbox
check, string collation and upper-casing are parameters; the theorems quantify over all of them.

## Findings

Five properties one might expect do not hold of the code. Each is stated with the condition under which it does.

- A stale lock is checked and removed in two steps. Two waiters can therefore both enter the critical section, in a
  run from the start (`StoreUpdates.StaleRaceBreaksExclusion`). A removal keeps the lock discipline exactly when it
  hits no live process's lock (`StoreUpdates.RemovalIsBenign`), which an uninterrupted check-and-remove ensures
  (`StoreUpdates.AtomicRecoveryIsOrderly`); after any other removal the remover can enter beside the lock's owner
  (`StoreUpdates.BadRemovalLetsTwoIn`).
- `read` takes no lock and finds content unparsable before it moves the file, so it can move a write aside that
  resolved in between (`StoreUpdates.ReadMovesFreshWriteAside`). Moving a present file keeps it equal to the fold of
  the commits exactly when its content is unparsable at that moment (`StoreUpdates.MoveKeepsFoldIff`), which holds
  whenever no rename falls between a reader's read and its move (`StoreUpdates.LockedUpdatesAreNeverLost`,
  `StoreUpdates.OneProcessNeedsNoLock`). The theorems about updates allow such readers in every mode.
- In persist mode a session can come to run two loops at once (`PersistedTurns.TwoLoopsInOneSession`). A run in which
  no drain ends on an empty record while a submission is still persisting never has two
  (`PersistedTurns.OneLoopUnlessStranded`), and after such an end some continuation has two
  (`PersistedTurns.StrandedRunsTwoLoops`).
- The porcelain parser loses the source of a rename or copy that only the worktree column shows, and reads that
  source as an entry of its own. Everything else round-trips (`Porcelain.RoundTrip`).
- A runtime context whose printed paths end in white space does not survive a subprocess, because variables are
  trimmed (`RuntimeContext.SpacedHomeDoesNotComeBack`). Every other context does
  (`RuntimeContext.EnvironmentRoundTrip`).

A file moved into quarantine may be removed by the cleanup that follows at once, since moving keeps its modification
time; it stays exactly when fewer than the retention count of others sort before it (`StoreCrashes.SweepSparesIff`).
The two goal managers agree on a call exactly when no in-flight time is due (`HostGoals.AgreeUnlessTimeIsDue`), which
covers all calls made with no step in flight.

## Model

| member | source | states |
|---|---|---|
| `GoalRuns.TimeNeverDoubleCharged` | packages/cli-goal-plugin/src/index.ts:648-714 | for every run with a monotone clock and fresh ids, 1000 times the seconds charged to a goal is at most the milliseconds from the call that created it to the latest clock reading |
| `GoalRuns.StepTimeFits` | packages/cli-goal-plugin/src/index.ts:752-789 | the invariant behind it: time charged so far plus the open step's time fits into the goal's age, kept by every operation |
| `GoalRuns.TokensConserved` | packages/cli-goal-plugin/src/index.ts:693-714 | for every run, a stored goal's `tokensUsed` is the sum, read off the history alone, of what steps begun under its id spent; steps of cleared or replaced goals add nothing |
| `GoalRuns.TimeConserved` | packages/cli-goal-plugin/src/index.ts:681-789 | for every run with fresh ids, a stored goal's `timeUsedSeconds` is the sum, read off the history and its clock readings alone, of the whole seconds of its own steps' spans |
| `GoalRuns.ElapsedIsWhole` | packages/cli-goal-plugin/src/index.ts:711-711 | the seconds charged for a span are the whole seconds in it: 1000 times them is at most the span, and 1000 times one more exceeds it; none for a negative span |
| `GoalRuns.SecondsTruncate` | packages/cli-goal-plugin/src/index.ts:728-750 | time stamps truncate milliseconds toward zero, on both sides of it |
| `GoalRuns.CacheTokensCancel` | packages/cli-goal-plugin/src/index.ts:1405-1417 | cache reads and writes cancel exactly: a step is charged input plus output plus reasoning tokens |
| `GoalRuns.StepClock` | packages/cli-goal-plugin/src/index.ts:681-714 | what each operation does to the step start and the tracked goal id |
| `GoalRuns.StepCharge` | packages/cli-goal-plugin/src/index.ts:761-789 | an operation starts a new goal at zero or charges the stored one for its own step only, and never changes its id or creation time |
| `GoalRuns.StepKeepsBudget` | packages/cli-goal-plugin/src/index.ts:728-750 | every operation keeps: active is below budget, budget-limited has reached a budget, reported is budget-limited |
| `GoalRuns.BudgetInvariant` | packages/cli-goal-plugin/src/index.ts:1397-1399 | that holds of every goal after every run |
| `GoalRuns.BudgetPromptOncePerEpisode` | packages/cli-goal-plugin/src/index.ts:667-672 | while a goal stays budget-limited the budget prompt is produced at most once, and not at all if already reported |
| `GoalRuns.ContinuationsWithinBudget` | packages/cli-goal-plugin/src/index.ts:857-876 | with goal and budget unchanged, at most `budget - tokensUsed` continuations can lead to a step that charges a token |
| `GoalCalls.CreateDoes` | packages/cli-goal-plugin/src/index.ts:455-469 | a goal is created exactly from an objective of 1 to 4000 trimmed characters and a positive or absent budget when there is none, with these fields; otherwise nothing changes |
| `Text.StartIsSuffix` | packages/cli-goal-plugin/src/index.ts:1389-1391 | trimming at the start leaves the rest of the text as it is |
| `Text.StartIsBlank` | packages/cli-goal-plugin/src/index.ts:1389-1391 | only white space is removed at the start |
| `Text.EndIsBlank` | packages/cli-goal-plugin/src/index.ts:1389-1391 | only white space is removed at the end |
| `Text.TrimmedEnds` | packages/cli-goal-plugin/src/index.ts:1389-1391 | no white space is left at either end |
| `GoalCalls.SetObjectiveDoes` | packages/cli-goal-plugin/src/index.ts:525-534 | which goal is stored afterwards: the same one active again or budget-limited, a fresh one, or the old one after unacceptable input |
| `GoalCalls.StatusCallDoes` | packages/cli-goal-plugin/src/index.ts:471-490 | completing, blocking, pausing and resuming fail exactly without a goal and leave that status, or budget-limited in place of active when the budget is used up |
| `GoalCalls.EditDoes` | packages/cli-goal-plugin/src/index.ts:492-516 | when an edit succeeds, and status, objective and budget after it from those before; a finished or budget-limited goal becomes active unless its budget is used up |
| `GoalCalls.StopDoes` | packages/cli-goal-plugin/src/index.ts:518-523 | an interrupt leaves an active goal paused and a usage limit leaves it usage-limited; any other status stays |
| `GoalCalls.StepEndDoes` | packages/cli-goal-plugin/src/index.ts:693-714 | the end of a goal's own step leaves it budget-limited exactly when something is charged, it is not complete and the budget is then used up |
| `GoalCalls.OtherCallsDo` | packages/cli-goal-plugin/src/index.ts:681-714 | a step's start, other failures, the hooks and the goal tool itself leave status, objective and budget alone |
| `GoalCalls.ToolDoes` | packages/cli-goal-plugin/src/index.ts:655-659 | another tool's end changes the status only by charging a due second to a used-up budget |
| `GoalCalls.HooksSay` | packages/cli-goal-plugin/src/index.ts:857-876 | which prompt the hooks give for every stored goal; giving the budget prompt marks the goal reported, anything else changes nothing |
| `GoalCalls.CommandsDo` | packages/cli-goal-plugin/src/index.ts:536-628 | the stored goal after each `/goal` command, from the one before |
| `GoalManager.ThreadGoalManager.UpdateExistingGoal` | packages/cli-goal-plugin/src/index.ts:728-750 | patches the goal, recomputes status and report flag, fails without a goal, touches no other session |
| `GoalManager.ThreadGoalManager.AccountTrackedStepUsage` | packages/cli-goal-plugin/src/index.ts:761-789 | charges time and tokens to the goal the step was begun under, and to no other |
| `GoalManager.ThreadGoalManager.AccountInFlightElapsed` | packages/cli-goal-plugin/src/index.ts:752-759 | charges whole seconds of the open step and restarts its clock |
| `GoalManager.ThreadGoalManager.StopActiveGoal` | packages/cli-goal-plugin/src/index.ts:518-523 | accounts, then stops an active goal with the given status |
| `GoalManager.ThreadGoalManager.HandleRuntimeEvent` | packages/cli-goal-plugin/src/index.ts:681-714 | moves the session as the event says; an event without session id changes nothing |
| `GoalManager.ThreadGoalManager.BudgetLimitPrompt` | packages/cli-goal-plugin/src/index.ts:667-672 | speaks for a budget-limited goal not yet reported, and marks it reported |
| `GoalManager.ThreadGoalManager.EditGoalObjective` | packages/cli-goal-plugin/src/index.ts:492-516 | accounts, validates, then edits objective, status and budget, failing where the source throws |
| `GoalManager.ThreadGoalManager.SetGoalObjective` | packages/cli-goal-plugin/src/index.ts:525-534 | reactivates an unfinished goal with the same objective, else replaces the goal under a new id |
| `GoalManager.ThreadGoalManager.CreateGoal` | packages/cli-goal-plugin/src/index.ts:455-469 | creates a goal from valid input unless one exists |
| `GoalManager.ThreadGoalManager.SetStatus` | packages/cli-goal-plugin/src/index.ts:471-490 | accounts, then sets the status, subject to the budget |
| `GoalManager.ThreadGoalManager.ClearGoal` | packages/cli-goal-plugin/src/index.ts:483-485 | removes the goal and leaves the step maps alone |
| `GoalManager.ThreadGoalManager.AccountToolCompleted` | packages/cli-goal-plugin/src/index.ts:655-659 | accounts in-flight time except for the goal tool itself |
| `GoalManager.ThreadGoalManager.Prompts` | packages/cli-goal-plugin/src/index.ts:857-876 | the idle and mid-turn hooks: budget prompt first, then a continuation for an active goal when idle |
| `GoalManager.ThreadGoalManager.HandleGoalCommand` | packages/cli-goal-plugin/src/index.ts:536-628 | a command does exactly what the operation it stands for does and is recorded in the history as that, or does nothing |
| `GoalManager.ThreadGoalManager.Dispatch` | packages/cli-goal-plugin/src/index.ts:434-790 | any call moves its session as the slot machine says, or not at all for a runtime event without session, and moves no other session |
| `GoalManager.ThreadGoalManager.Handle` | packages/cli-goal-plugin/src/index.ts:805-884 | the object stays where its history of calls leads, and answers as the slot machine does there |
| `GoalManager.ThreadGoalManager.StoredGoalIsAccountedFor` | packages/cli-goal-plugin/src/index.ts:434-790 | an object's stored goal has been charged exactly the tokens and the whole seconds of its own steps, no more time than it has existed, and its status fits its budget |
| `HostGoals.AgreeUnlessTimeIsDue` | packages/remote-runtime-host/src/goal-state.ts:107-186 | on one shared call the managers fail alike, and store alike exactly when no in-flight time is due |
| `HostGoals.HostSimulatesPlugin` | packages/remote-runtime-host/src/goal-state.ts:107-186 | with no step in flight, any sequence of shared calls leaves equal stores and the same failures |
| `GoalPrompts.EscapeIsOnePass` | packages/cli-goal-plugin/src/index.ts:1316-1318 | the three replacements equal one pass over the characters |
| `GoalPrompts.EscapeRoundTrip` | packages/cli-goal-plugin/src/index.ts:1316-1318 | escaping has a left inverse and leaves no angle bracket |
| `GoalPrompts.RenderKeepsTags` | packages/cli-goal-plugin/src/index.ts:1393-1395 | filling a template that closes each tag before the next hole neither makes nor breaks any tag |
| `GoalPrompts.MarkersOccurOnce` | packages/cli-goal-plugin/src/index.ts:1285-1314 | for every goal, the framed prompt of such a template without markers holds each marker exactly once |
| `GoalPrompts.ObjectiveComesBack` | packages/cli-goal-plugin/src/index.ts:1285-1318 | for every goal, the objective can be read back from the framed prompt |
| `GoalPrompts.PromptIsFramed` | packages/cli-goal-plugin/src/index.ts:57-141 | both hold for every template of the shape of the three in the source: bracket-free text around one tagged objective |
| `GoalPrompts.OtherText` | packages/cli-goal-plugin/src/index.ts:1393-1395 | a hole without a value comes out empty and text without holes as it is |
| `GoalPrompts.OtherBracesStay` | packages/cli-goal-plugin/src/index.ts:1393-1395 | double braces around anything but small letters and underscores stay as they are |
| `GoalPrompts.StepHoles` | packages/cli-goal-plugin/src/index.ts:1285-1292 | the token holes of a continuation show the tokens used and the budget or `none` |
| `GoalPrompts.RemainingHole` | packages/cli-goal-plugin/src/index.ts:1285-1292 | its remaining hole shows what is left of the budget, never below zero, or `unbounded` |
| `GoalPrompts.LimitHoles` | packages/cli-goal-plugin/src/index.ts:1294-1301 | the token holes of the budget prompt show the same |
| `GoalPrompts.TimeHole` | packages/cli-goal-plugin/src/index.ts:1294-1301 | its time hole shows the seconds used |
| `TurnIds.ShownIdsDiffer` | packages/cli-session-turns/src/index.ts:56-59 | printed ids with different sequence numbers differ, whatever the session names and clocks |
| `TurnIds.ShownParts` | packages/cli-session-turns/src/index.ts:58-58 | an id shows session, clock reading and number in this order between colons, whenever the first two hold none |
| `QueuedTurns.StepKeepsSession` | packages/cli-session-turns/src/index.ts:82-103 | every step keeps one drain at most, the entry exactly while it runs, and submitted = settled, then in flight, then queued |
| `QueuedTurns.QueueModeGuarantees` | packages/cli-session-turns/src/index.ts:48-63 | in every reachable state and session: one prompt in flight at most, a queue only behind a drain, items started and settled in submission order and once, ids distinct, `pending` lists the unstarted ones |
| `QueuedTurns.ItemsAreAnswered` | packages/cli-session-turns/src/index.ts:82-90 | in every reachable state, read off the events: the items settled are the first ones submitted, each resolved exactly when the call that settled it returned normally, and its prompt was run exactly when the steer call gave no message, once and with the input it was submitted with |
| `QueuedTurns.WorkDrains` | packages/cli-session-turns/src/index.ts:82-103 | whatever fails, work left means a step is possible, each step leaves less, and no work left means every submission has settled |
| `TurnCoordinator.SessionTurnCoordinator.Submit` | packages/cli-session-turns/src/index.ts:131-165 | the object takes the protocol's submission step |
| `TurnCoordinator.SessionTurnCoordinator.Resume` | packages/cli-session-turns/src/index.ts:92-103 | a drain loop, on the state object it was started with (tracked from its start to its end), takes the protocol's loop step |
| `TurnCoordinator.SessionTurnCoordinator.Pending` | packages/cli-session-turns/src/index.ts:167-170 | lists the protocol's unstarted items |
| `TurnCoordinator.SubmitAgrees` | packages/cli-session-turns/src/index.ts:159-165 | a mapped state is always draining, and pushing or starting as the code does keeps map and protocol in agreement |
| `TurnCoordinator.ResumeAgrees` | packages/cli-session-turns/src/index.ts:92-103 | so does shifting the queue, or clearing the flag and dropping the entry |
| `PersistedTurns.StepKeepsRecords` | packages/cli-session-turns/src/index.ts:105-129 | every step keeps, per state record: draining exactly while one drain runs, and pushes = consumed then persisted |
| `PersistedTurns.StepKeepsIdsApart` | packages/cli-session-turns/src/index.ts:153-156 | no id waits or is pushed twice |
| `PersistedTurns.PersistModeGuarantees` | packages/cli-session-turns/src/index.ts:105-129 | in every reachable state: ids pairwise distinct across sessions and clocks, one drain per record, signals consumed in push order and at most once |
| `PersistedTurns.FailureKeepsUnstarted` | packages/cli-session-turns/src/index.ts:113-128 | a failure consumes only the started signal, keeps the unstarted suffix, and the next submission drains from there |
| `PersistedTurns.SignalsAreWorkedOn` | packages/cli-session-turns/src/index.ts:113-121 | in every reachable state, read off the events: one wait per signal shifted, one loop per session found idle and per newer message found, one check per loop that returned |
| `PersistedTurns.ExclusiveUnlessStranded` | packages/cli-session-turns/src/index.ts:131-157 | a step keeps the session to one live record and drain if and only if it does not end a drain on an empty record while a submission waits |
| `PersistedTurns.OneLoopUnlessStranded` | packages/cli-session-turns/src/index.ts:105-157 | a run without such a step never has two drains of the session |
| `PersistedTurns.StrandedRunsTwoLoops` | packages/cli-session-turns/src/index.ts:105-157 | after every such step some continuation has two loops of the session running |
| `PersistedTurns.TwoLoopsInOneSession` | packages/cli-session-turns/src/index.ts:131-157 | a reachable state with two loops of one session running |
| `StoreUpdates.UpdatesAreNeverLost` | packages/cli-local-state/src/index.ts:162-173 | for every orderly interleaving of updates and reads by any processes with crashes anywhere, with or without a lock file: one live update at most in the critical section, and the file is the fold of the committed updates |
| `StoreValues.UpdatesCompose` | packages/cli-local-state/src/index.ts:162-173 | when what is written of a valid value parses back: from any start file and after every orderly run, the file holds the committed updates composed over values, each validated, starting from the value at the start; a start that refuses to be read stays and nothing is committed |
| `StoreValues.ReadingDoes` | packages/cli-local-state/src/index.ts:108-130 | what reading missing, empty or NUL-only, parsable and unparsable content leads to in each recovery mode, for an update and a reader |
| `StoreValues.RejectsIff` | packages/cli-local-state/src/index.ts:132-173 | the steps at which a call rejects, exactly: a failure, refused content, a file gone before it is moved, a throwing updater, an invalid value |
| `StoreValues.UpdateAloneResolves` | packages/cli-local-state/src/index.ts:162-173 | an update alone on a file that holds a value can resolve with its validated result in the file and the lock released, in both lock modes |
| `StoreValues.UpdatesSettleInOrder` | packages/cli-local-state/src/index.ts:330-346 | in every run each process settles its updates in the order it called for them, and its queue holds the others |
| `StoreUpdates.StepSound` | packages/cli-local-state/src/index.ts:330-393 | the inductive invariant: queue order, lock ownership, whole files, file equals fold, only unparsable content moved, and each update's view agrees with the file |
| `StoreUpdates.OneProcessNeedsNoLock` | packages/cli-local-state/src/index.ts:330-346 | without a lock file the promise queue gives the same for one process at a time, restarts after crashes included, and reads in every mode when no rename falls between a reader's read and its move |
| `StoreUpdates.LockedUpdatesAreNeverLost` | packages/cli-local-state/src/index.ts:348-393 | with a lock file, every run from the start with uninterrupted stale recovery, and no rename between a reader's read and its move, has one live update at most inside and a file equal to the fold |
| `StoreUpdates.RemovalIsBenign` | packages/cli-local-state/src/index.ts:446-460 | removing a judged lock keeps the lock discipline if and only if no live process holds it |
| `StoreUpdates.BadRemovalLetsTwoIn` | packages/cli-local-state/src/index.ts:446-460 | after any removal of a live process's lock the remover can acquire, which puts two live updates in the critical section |
| `StoreUpdates.AtomicRecoveryIsOrderly` | packages/cli-local-state/src/index.ts:446-460 | every run of updates and reads whose stale check and removal are uninterrupted, with no rename between a reader's read and its move, is orderly |
| `StoreUpdates.StaleRaceBreaksExclusion` | packages/cli-local-state/src/index.ts:446-460 | from the start, with any files and any update, a run ends with two live updates in the critical section |
| `StoreUpdates.RenameSparesUnparsable` | packages/cli-local-state/src/index.ts:162-173 | an update never renames over unparsable content |
| `StoreUpdates.UnparsableIsKept` | packages/cli-local-state/src/index.ts:255-283 | unparsable content the file ever held in an orderly run is later still in the file, or was moved aside and lies in its quarantine file unless a cleanup removed that |
| `StoreUpdates.MoveKeepsFoldIff` | packages/cli-local-state/src/index.ts:494-500 | moving a present file aside keeps the file equal to the fold of the commits if and only if its content is unparsable at that moment |
| `StoreUpdates.ReaderKeepsFold` | packages/cli-local-state/src/index.ts:108-130 | a reader that moves only such content keeps file and commits in agreement and commits nothing |
| `StoreUpdates.ReadMovesFreshWriteAside` | packages/cli-local-state/src/index.ts:108-160 | from unparsable content, a run in which a resolved, committed write is moved aside by a concurrent read |
| `StoreCrashes.EveryCrashPointIsWhole` | packages/cli-local-state/src/index.ts:108-160 | at every point of every run of updates, reads and writes, whatever the lock policy and races: the file is its first content, complete validated bytes, or moved aside; what was moved aside was such content and is in quarantine unless swept; fail-closed moves nothing |
| `StoreCrashes.StepKeepsWhole` | packages/cli-local-state/src/index.ts:132-160 | the inductive invariant: a writer's bytes are complete, its temporary file holds what it wrote of them, and no two writers share one |
| `StoreCrashes.FileChangesWhole` | packages/cli-local-state/src/index.ts:132-160 | each step of a call leaves the file, replaces it by complete validated bytes, or (never fail-closed) moves it aside as it is |
| `StoreCrashes.SweepSparesIff` | packages/cli-local-state/src/index.ts:494-509 | the cleanup after a move spares a quarantine file if and only if fewer than the retention count of others are newer, or equally new and listed earlier |
| `StoreCrashes.ResolvedIsCommittedOnce` | packages/cli-local-state/src/index.ts:162-173 | in every run an update or write that resolved was renamed into place exactly once, and one that rejected never |
| `QuarantineCleanup.CleanupQuarantineFiles` | packages/cli-local-state/src/index.ts:528-553 | exactly the newest `min(n, retention)` quarantine files remain and no other file is touched |
| `QuarantineCleanup.Candidates` | packages/cli-local-state/src/index.ts:538-548 | the first loop lists each existing quarantine file once with its time, in listing order |
| `QuarantineCleanup.RemoveAll` | packages/cli-local-state/src/index.ts:550-552 | the removal loop removes exactly the given names |
| `QuarantineCleanup.SurvivesIff` | packages/cli-local-state/src/index.ts:549-552 | a quarantine file survives if and only if fewer than `retention` others sort before it |
| `StableSort.SortSorts` | packages/cli-local-state/src/index.ts:549-549 | the sort orders its input and keeps its elements |
| `StableSort.SortIsStable` | packages/cli-local-state/src/index.ts:549-549 | elements that compare as equal keep their order |
| `StableSort.PlaceIsRank` | packages/cli-local-state/src/index.ts:549-549 | without repeats, the place of an element is the number of elements that sort before it |
| `ResponseLifecycle.AcceptedIffInLanguage` | packages/runtime-protocol/src/normalized-response-events.ts:283-464 | a trace is accepted step by step if and only if it lies in a language stated by begin, continue and end events per key |
| `ResponseLifecycle.StateMirrorsTrace` | packages/runtime-protocol/src/normalized-response-events.ts:397-464 | after an accepted trace an entry is closed exactly when its key ended, and present exactly when it was begun where a begin is needed |
| `ResponseLifecycle.StateRecordsLastWrite` | packages/runtime-protocol/src/normalized-response-events.ts:397-464 | an entry is absent exactly when nothing wrote it, and otherwise holds the phase that the last event to write it announces by name |
| `ResponseLifecycle.ValidateByKeys` | packages/runtime-protocol/src/normalized-response-events.ts:283-395 | the case analysis asks one question of exactly the keys the event plays a role in |
| `ResponseLifecycle.RejectionsAreTrue` | packages/runtime-protocol/src/normalized-response-events.ts:283-395 | every rejection gives a reason that is so of the event and the state |
| `ResponseLifecycle.ApplyWrites` | packages/runtime-protocol/src/normalized-response-events.ts:397-464 | the transition writes the event's key and no other |
| `ResponseLifecycle.IndependentEventsCommute` | packages/runtime-protocol/src/normalized-response-events.ts:283-464 | events whose writes miss each other's reads and writes can be swapped, with the same state |
| `ResponseLifecycle.SwapKeepsAcceptance` | packages/runtime-protocol/src/normalized-response-events.ts:283-464 | so can adjacent ones anywhere in an accepted trace |
| `ResponseLifecycle.OpenIsStartsMinusTerminals` | packages/runtime-protocol/src/normalized-response-events.ts:283-464 | in every accepted trace the open responses number starts minus terminals |
| `GitStatusPool.PoolByteBound` | packages/remote-runtime-host/src/local-git-status-reader.ts:22-30 | for every schedule total diff bytes are at most A + (k-1) * min(2 * maxDiffBytes, A), plus the truncation slack |
| `GitStatusPool.BudgetIsExact` | packages/remote-runtime-host/src/local-git-status-reader.ts:22-30 | after every schedule, read off the schedule: the bytes left are the aggregate less the bytes returned, never below zero, and a worker works with what was left when it asked for its directory |
| `GitStatusPool.FittingDiffsAreNotCut` | packages/remote-runtime-host/src/local-git-status-reader.ts:63-72 | when all diffs fit the aggregate and each the limit for one, no schedule cuts any, and whoever is inside a directory can return its diffs in full |
| `GitStatusPool.ReturnableIff` | packages/remote-runtime-host/src/local-git-status-reader.ts:165-172 | a worker can return exactly what reading some staged and some unstaged diff can give, the second within what the first left |
| `GitStatusPool.Aggregate` | packages/remote-runtime-host/src/local-git-status-reader.ts:23-23 | the aggregate is the smaller of 8388608 and twice the limit per diff times the directories |
| `GitStatusPool.Start` | packages/remote-runtime-host/src/local-git-status-reader.ts:215-232 | the pool has four workers, or one per directory when those are fewer |
| `GitStatusPool.StepWithinBudget` | packages/remote-runtime-host/src/local-git-status-reader.ts:63-72 | the inductive invariant: bytes out, plus what busy workers may still produce, fit the bound |
| `GitStatusPool.PoolCoversAll` | packages/remote-runtime-host/src/local-git-status-reader.ts:215-232 | for every schedule directories are begun in order and once, and a finished pool has one output per directory in its place |
| `GitStatusPool.PoolTerminates` | packages/remote-runtime-host/src/local-git-status-reader.ts:215-232 | every step leaves less work, and an unfinished pool can step |
| `Porcelain.ParsePorcelainStatus` | packages/remote-runtime-host/src/local-git-status-reader.ts:101-137 | parsing output is the part-by-part meaning of its non-empty parts |
| `Porcelain.ParseLoop` | packages/remote-runtime-host/src/local-git-status-reader.ts:109-136 | the index loop computes the part-by-part meaning of any list of parts |
| `Porcelain.RoundTrip` | packages/remote-runtime-host/src/local-git-status-reader.ts:101-137 | parsing printed output returns the entries if and only if none is a worktree-side rename or copy, and then the header's branch; sources may be short or look like a header |
| `Porcelain.ParsedFlagsFit` | packages/remote-runtime-host/src/local-git-status-reader.ts:156-163 | in any output, conflicted marks exactly git's seven unmerged codes and any other code with a `U`, untracked exactly `??` |
| `Porcelain.NoHeaderNoBranch` | packages/remote-runtime-host/src/local-git-status-reader.ts:101-119 | output without a header leaves the branch unknown |
| `Porcelain.ShortPartIsSkipped` | packages/remote-runtime-host/src/local-git-status-reader.ts:109-120 | a part of three characters or fewer is passed over |
| `Porcelain.LastRenameHasNoSource` | packages/remote-runtime-host/src/local-git-status-reader.ts:122-136 | a rename entry at the end of the output has no source |
| `TrustedDevices.CollectRevocations` | packages/remote-runtime-adapters/src/index.ts:1436-1449 | the first loop finds each device's newest revocation |
| `TrustedDevices.EmitDevices` | packages/remote-runtime-adapters/src/index.ts:1464-1478 | the last loop keeps each device's first eligible event |
| `TrustedDevices.TrustedFromAuditEvents` | packages/remote-runtime-adapters/src/index.ts:1431-1479 | the whole derivation equals its specification |
| `TrustedDevices.TrustedIffNewestPairing` | packages/remote-runtime-adapters/src/index.ts:1431-1479 | a device is trusted if and only if an accepted pairing of it with a key is strictly newer than each of its revocations; the key is the newest such pairing's; ids are distinct |
| `TrustedDevices.AcceptedIs` | packages/remote-runtime-adapters/src/index.ts:590-602 | a pairing counts under exactly three action names, for its own installation, with a client id that is not blank |
| `TrustedDevices.EligibleIs` | packages/remote-runtime-adapters/src/index.ts:1450-1478 | what a pairing event needs to make its device trusted, in terms of the events and literal action names |
| `TrustedDevices.EventOrderIsIrrelevant` | packages/remote-runtime-adapters/src/index.ts:1431-1479 | without ties in acceptance time any order of the events gives the same list |
| `TrustedDevices.Deduplicate` | packages/remote-runtime-adapters/src/index.ts:1302-1312 | the loop equals first-wins on usable devices |
| `TrustedDevices.DeduplicatedMembers` | packages/remote-runtime-adapters/src/index.ts:1302-1312 | a device is kept if and only if it is usable and first of its id |
| `TrustedDevices.MergeAgain` | packages/remote-runtime-adapters/src/index.ts:1314-1342 | merging the same devices again changes nothing |
| `TrustedDevices.AdditionalDeviceWins` | packages/remote-runtime-adapters/src/index.ts:1314-1342 | additional devices win their ids and the first one becomes primary |
| `TrustedDevices.MergedMembers` | packages/remote-runtime-adapters/src/index.ts:1314-1342 | per id a merged authority trusts the first usable device among the additional ones, else its own, else its primary |
| `TrustedDevices.MergedPrimary` | packages/remote-runtime-adapters/src/index.ts:1314-1342 | the first usable device of all becomes primary; without one the primary stays |
| `RuntimeContext.EnvironmentRoundTrip` | packages/cli-runtime-context/src/index.ts:324-410 | a context parsed from any environment comes back from its subprocess environment if and only if no printed path ends in white space, whatever the child's directory and home |
| `RuntimeContext.ProductionRoundTrip` | packages/cli-runtime-context/src/index.ts:526-586 | the production half, for every database, config and launchd override |
| `RuntimeContext.TestRoundTrip` | packages/cli-runtime-context/src/index.ts:336-358 | the sandbox half |
| `RuntimeContext.ReadBack` | packages/cli-runtime-context/src/index.ts:258-265 | a printed path read through a trimmed variable comes back if and only if it does not end in white space |
| `RuntimeContext.HomeDoesNotComeBack` | packages/cli-runtime-context/src/index.ts:526-528 | each path that ends in white space is the home of a context that does not come back |
| `RuntimeContext.SpacedHomeDoesNotComeBack` | packages/cli-runtime-context/src/index.ts:526-528 | one such home |
| `RuntimeContext.DefaultPlaces` | packages/cli-runtime-context/src/index.ts:526-550 | with only a home set, where every directory, the database, the launch agents and the launch log lie |
| `RuntimeContext.SystemHome` | packages/cli-runtime-context/src/index.ts:527-527 | without a home variable, or with a blank one, the system's home directory is used |
| `RuntimeContext.BlankIsUnset` | packages/cli-runtime-context/src/index.ts:527-531 | a variable of white space counts as not set |
| `RuntimeContext.VariablePlaces` | packages/cli-runtime-context/src/index.ts:528-539 | each variable moves its own directory whatever the others are; the config variable wins over the config root |
| `RuntimeContext.RelativeIsRefused` | packages/cli-runtime-context/src/index.ts:258-261 | a directory variable with a relative path is refused |
| `RuntimeContext.RelativeResolves` | packages/cli-runtime-context/src/index.ts:527-527 | relative text, as a home may be, is resolved from the working directory |
| `RuntimeContext.DatabaseOverrides` | packages/cli-runtime-context/src/index.ts:565-578 | the database without an override, in memory, and at an absolute path |
| `RuntimeContext.DatabaseNames` | packages/cli-runtime-context/src/index.ts:565-578 | a plain name lies in the data directory; which names are refused, and how |
| `RuntimeContext.LaunchAgents` | packages/cli-runtime-context/src/index.ts:580-586 | launch agents are disabled by exactly `1`, and otherwise lie where the variable says or under the home directory |
| `RuntimeContext.SandboxIsInside` | packages/cli-runtime-context/src/index.ts:345-358 | a sandbox is accepted exactly when its eight places are really inside it, and then has these places, no database file and no launch agents |
| `RuntimeContext.SandboxConfig` | packages/cli-runtime-context/src/index.ts:336-343 | the config variable moves a sandbox's config exactly when it names a place that is really inside |
| `SigningPayloads.PayloadIsInjective` | packages/remote-runtime-contracts/src/index.ts:1307-1395 | messages with one-line fields have equal payloads if and only if they are of one kind and equal up to method case, absent against empty, and an absent version against the text `undefined` |
| `SigningPayloads.PayloadTellsKind` | packages/remote-runtime-contracts/src/index.ts:1307-1395 | payloads of different builders are never equal, line breaks in fields or not |
| `SigningPayloads.PayloadLines` | packages/remote-runtime-contracts/src/index.ts:1307-1395 | splitting a payload gives back its scope and field lines |
| `SigningPayloads.RequestText` | packages/remote-runtime-contracts/src/index.ts:1307-1330 | the text of a request's payload: literal scope, thirteen literal labels in order, and which field stands after each; with one-line fields these are its lines |
| `SigningPayloads.ResponseText` | packages/remote-runtime-contracts/src/index.ts:1332-1355 | the same for a response |
| `SigningPayloads.UpgradeText` | packages/remote-runtime-contracts/src/index.ts:1357-1377 | the same for a socket upgrade |
| `SigningPayloads.ActionText` | packages/remote-runtime-contracts/src/index.ts:1379-1396 | the same for a socket action |
| `SigningPayloads.ScopeTellsKind` | packages/remote-runtime-contracts/src/index.ts:507-513 | the scopes of the four builders differ |

## Left out

- `StoreUpdates.UpdatesAreNeverLost`: for orderly runs only, which the races under Findings show to be needed; standalone writes, which take no lock, are left out of it.
- `StateStore`: the lock file and its pid appear in one step and pids are not reused; the synchronous store; age thresholds and the retry deadline of `withLock`, which are nondeterministic choices here; directory and file modes; a directory listing and its stats are one step.
- `PersistedTurns`: `isSessionBusy` and the direct prompt path; the object form of persist mode, since its awaits split one call over several steps; claims are per state record.
- `QueuedTurns`, `PersistedTurns`: the messages handed to callers, beyond whether an item resolved or rejected; the search for a newer user message, whose answer is a parameter.
- `GoalManager`: `accountUsage`, which no hook calls; telemetry, tool responses and status formatting; the text parsing of `/goal` commands, whose outcome is a datatype here; the steering text an edit returns; token counts are integers.
- `GoalPrompts`: the wording of the three templates, over which the theorems quantify; `values` holding names of JavaScript's object prototype.
- `ResponseLifecycle`: ids that name members of JavaScript's object prototype; error messages.
- `GitStatusPool`: running git; the bytes that decoding a cut character may add are the parameter `slack`.
- `Porcelain`: the regular expression for branch headers is the parameter `branchOf`.
- `TrustedDevices`: `<=` on strings and `localeCompare` are any total order and any total preorder.
- `RuntimeContext`: Windows paths; the walk that finds real paths is the parameter `allowed`; serialisation to JSON.
- `SigningPayloads`: JavaScript numbers that are not integers; signing and verification.
- The status sequencer and version negotiation of the contracts package: they would add easy members only.
- User interface, HTTP, adapters for external agents, installers and release scripts: thin layers over I/O.
