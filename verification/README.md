# actionscat: model and proofs

A Dafny model of the run-hosting core: what happens to runs, tokens, schedules, versions, state files
and messages under any interleaving of workers, administrators, failed writes, crashes and restarts,
and proofs of what the core guarantees about them. `dafny verify dfyconfig.toml` checks everything.

## How the model is built

Five parts, each in its own modules.

1. **Run lifecycle.** `Store` has the tables and each database statement twice: as a function on table
   values and as a method of the class `SQLiteStore` proved against it. `Protocol` is the state machine:
   one event for each atomic step of administrators (create, update, activate, delete, prepare and store
   a run), of workers (claim, mint, verdict, revoke, write the status), of crashes and of restarts, where
   every write may also fail. `Invariants` shows that each step keeps the ownership invariant (one worker
   for each owned run). `History` states the guarantees over whole behaviours. `Runner` has the retry
   loops, `executeRun`, `finishRun`, `Start` and `drainQueue` as methods, and shows that an execution is a
   path of enabled protocol events with the same effect on the tables.
2. **Scheduler.** `Scheduler` has the due query, the transactions and `Tick`; `ScheduleHistory` is the
   machine with any number of schedulers, with stronger results for one.
3. **Version creation.** `Versions` is the protocol of staging, clearing, renaming, inserting and rolling
   back with a crash between any two steps; `VersionService` is the service as it runs, carrying a ghost
   protocol state that stays reachable.
4. **Byte-level code.** `DotEnv` and `StatePath` hold the loops of the dotenv parser and of the path
   cleaner and state store. `Base64`, `ExportRun` (an export command by command), `Transfer` (paths, disk,
   the round trip) and `SandboxClient` (the client as it runs) hold chunked upload and export.
5. **Trigger to environment to reply.** `Matcher`, `Planning`, `Delivery`, `Routing`, and `Runtime` for the
   gate in front of state writes.

`Domain` has the shared records, `Text` the string functions of the Go library on bytes, `Sums` sums over
maps that do not depend on the order of iteration.

Operations are specified twice. A method is proved equal to a function, which the proofs about histories
use; and what that function answers is stated once more from its inputs alone, condition by condition and
with the literal names and limits of the source (`FateOfRun`, `DueScheduleGetsItsRun`, `CreateVersion`,
`DestOf`, `Authenticate`, `FieldIs`, `PlanFailsWith`, `NormalizedIs`, `ParsesAs` and others).

Strings are sequences of characters that each stand for one byte. Times are integers. Where the code
ranges over a Go map, the method picks keys in an arbitrary order, so its result is proved not to depend
on the order. A parameter such as `failAt`, `crashAt`, `fails`, `Env`, `Answer` or `plan` says what the
environment answers: it is universally quantified, so each theorem covers every failure.

## Where the code and its descriptions part

- An artifact bundle that is read but empty makes `executeRun` call `Error` on a nil error
  (internal/runner/runner.go:408). The deferred revocation still runs, then the process goes down. The
  protocol has this as `Panic`, and every guarantee about runs and tokens holds across it.
- A run whose status could not be stored in five attempts stays running without a worker until the next
  start. `AcceptedTokensAreOwned` says so: its token may still be accepted then, if it was not revoked.
- The middleware reads the token (internal/runtime/api.go:66) and then the run (:79) in two statements, so
  revocation alone does not end acceptance at once: a request whose first read comes before the revocation
  and whose second read comes after it is accepted until the status is stored (`AcceptedThoughDeadIff`,
  `WindowIsTheWorkers`; `StraddlingRequestIsAccepted` is a history). A stored terminal status ends it
  whatever was read before (`EndedRunsAreNeverAuthenticated`), and requests that start later are never
  accepted (`DeadRunsAreNeverAuthenticated`).
- `UpdateAction` writes back the active pair it read. An activation stored in between survives if and only
  if it stored the pair that was active already (`UpdateUndoesIff`, `ActivationSurvivesIff`);
  `UpdateLosesAnActivation` is a history in which one is lost. The restored pair was valid once, and stays
  so (`RunsNameTheirOwnBuild`).
- `next_run_at` can move back when two schedulers share a database: exactly when the time written is before
  the stored one (`NextRunMovesBackIff`), and never while the stored row is due at the round's clock, which
  one scheduler alone always finds (`NextRunOnlyAdvances`). `TwoSchedulersMoveBack` is a history.
- `UploadFiles` does not look at the exit status of the command that creates an empty file, so it can
  report success although an old file of that name keeps its contents (`RefusedCreationKeepsOldFile`).
  `EmptyUploadStoresIff` and `UploadFile` say exactly when success means stored.
- `ExportFiles` trims the located name. A file whose canonical name ends in white space is read under
  another name, and can come back with other bytes or none; `RoundTripIffNamesSurvive` says exactly for
  which paths the round trip holds.
- `ExportFiles` ignores exit statuses and decodes whatever was printed. After a refused command it can
  succeed without a file or with its first bytes only (`RefusedLocateLosesTheFile`,
  `RefusedBlockCutsShort`). `CutShortIff` and `ExportIsWholeIff` say exactly when, down to the byte; what it
  returns is always a beginning of the file read (`RunGivesBeginnings`).
- `resolveStatePath` also rejects names such as `..foo` that `sanitizeStatePath` accepts (`ResolveAccepts`).

## Assumptions

- Cron's next time, when there is one, is strictly later than the time asked about (`Advances`).
- A statement that fails leaves no row, and a transaction that fails leaves nothing.
- Ids of actions, schedules and runs are not reused; temporary names and staging tokens are not in use.
- A build's action and version never change.
- JSON is a faithful transport; the hash of a token is a function of it, and the `UNIQUE` constraint holds.
- `CleanOrphanedVersions` does not overlap a creation for the same action: it does not take the mutex.
- One Core process uses a data directory. Dead workers do not act after a crash.

## Model

| member | source | states |
|---|---|---|
| `Store.NothingClaimableIffSaturated` | internal/store/sqlite_store.go:869-891 | The claim query's condition holds for no run exactly when every queued run's action already runs as many runs as its limit. |
| `Store.NextIsEarliestBelowLimit` | internal/store/sqlite_store.go:869-891 | The claim query returns exactly an earliest queued run among those whose action runs fewer runs than its limit. |
| `Store.DeletionBlockedIff` | internal/store/db.go:13-124 | A delete is blocked exactly by a run that refers to the action, one of its versions, or a build that goes with them. |
| `Store.ClaimRunningSet` | internal/store/sqlite_store.go:858-907 | A claim adds the claimed run, and nothing else, to the running set of its own action. |
| `Store.SQLiteStore.CreateRun` | internal/store/sqlite_store.go:778-804 | Stores the run iff its id is new and action, version and build exist; otherwise no table changes. |
| `Store.SQLiteStore.ClaimNextQueuedRun` | internal/store/sqlite_store.go:858-907 | Claims an earliest claimable run and marks it running; answers nothing exactly when all queued runs' actions are saturated; a failure at any statement changes nothing. |
| `Store.SQLiteStore.UpdateRunStatus` | internal/store/sqlite_store.go:816-842 | The unguarded status update: succeeds iff the row exists and overwrites whatever status it has. |
| `Store.SQLiteStore.CreateRunToken` | internal/store/sqlite_store.go:1037-1054 | Stores a token iff its id and hash are unused and its run and action exist. |
| `Store.SQLiteStore.RevokeTokensForRun` | internal/store/sqlite_store.go:1093-1097 | Sets the revocation time of the run's unrevoked tokens and of no others. |
| `Store.SQLiteStore.RecoverOrphanRuns` | internal/store/sqlite_store.go:912-951 | Interrupts all running runs and revokes their tokens in one transaction, counting them; a failure at any operation undoes all of it. |
| `Store.SQLiteStore.UpdateAction` | internal/store/sqlite_store.go:74-91 | Overwrites the whole action row, active pair included, iff it exists. |
| `Store.SQLiteStore.SetActiveBuild` | internal/store/sqlite_store.go:93-107 | Sets the active pair and no other column. |
| `Store.SQLiteStore.DeleteAction` | internal/store/sqlite_store.go:140-151 | Deletes an action with its versions, builds and tokens iff no run refers to any of them. |
| `Invariants.RunFrame` | internal/store/sqlite_store.go:778-951 | Any step of any participant keeps a run's identity and changes its status only by its claim, its worker's verdict or recovery; new runs are queued. |
| `Invariants.TokenFrame` | internal/store/sqlite_store.go:1037-1097 | Any step at most adds a revocation time to a token; a new token is minted by the worker loading its run. |
| `Invariants.KeepsWorker` | internal/runner/runner.go:309-475 | A worker's phase stays in step with its run's stored status, its token and the lost set. |
| `Invariants.KeepsDistinct` | internal/store/sqlite_store.go:858-907 | No step makes two workers own the same run. |
| `Invariants.KeepsOwner` | internal/runner/runner.go:232-260 | While the process is up, a running run keeps a worker unless its verdict could not be stored. |
| `Invariants.KeepsHashes` | internal/store/db.go:115-124 | Two token records never share a hash. |
| `Invariants.StepKeepsInv` | internal/runner/runner.go:232-475 | Every atomic step (administration, claim, mint, revocation, status write, crash, restart) keeps the ownership invariant. |
| `History.InvAlways` | internal/runner/runner.go:232-475 | The ownership invariant holds in every reachable state. |
| `History.StatusOnlyAdvances` | internal/domain/run.go:18-40 | In every history a run keeps its identity and its status only moves queued, running, one terminal status; terminal is final. |
| `History.TerminalRunsHaveRun` | internal/store/sqlite_store.go:858-907 | No run reaches a terminal status without having been running in between. |
| `History.ClaimedAtMostOnce` | internal/store/sqlite_store.go:858-907 | A run is claimed at most once in the life of an installation. |
| `History.OneWorkerPerRun` | internal/runner/runner.go:232-307 | In every reachable state a run has at most one worker, and is running while that worker has not tried to store a status. |
| `History.VerdictsOverwriteRunning` | internal/store/sqlite_store.go:816-842 | Whenever a worker stores a verdict, the unguarded update overwrites a running row, and the verdict is terminal. |
| `History.FinishedAtMostOnce` | internal/runner/runner.go:453-475 | At most one step ever takes a run from running to terminal. |
| `History.TokensPersist` | internal/store/sqlite_store.go:1056-1097 | A stored token record is never removed, and never altered except for gaining its revocation time. |
| `History.OneTokenPerRun` | internal/runner/runner.go:332-345 | Over its whole life a run has at most one token. |
| `History.MintedTokenIsAcceptedIff` | internal/runtime/api.go:65-83 | A minted token is accepted by any two later reads exactly until it is revoked, its time is up or its run has ended, and grants exactly the scopes its version lists. |
| `History.DeadRunsAreNeverAuthenticated` | internal/runtime/api.go:65-83 | Once a run's terminal status or its token's revocation is stored, no request whose two reads come later is accepted with a token of that run, in any state and under any clock. |
| `History.EndedRunsAreNeverAuthenticated` | internal/runtime/api.go:78-83 | A terminal status stored before the second read rejects the request wherever its first read lies. |
| `History.AcceptedThoughDeadIff` | internal/runtime/api.go:65-83 | The window of the two reads, exactly: a request is accepted although its run is dead at the second read if and only if the token was valid at the first read, its revocation was stored in between, and the run is still running at the second read. |
| `History.WindowIsTheWorkers` | internal/runner/runner.go:453-475 | A revocation that leaves its run running, as the window needs, is stored by the run's own worker and never by recovery. |
| `History.StraddlingRequestIsAccepted` | internal/runtime/api.go:65-83 | The failing input: a fourteen-step history from an empty installation whose last step stores the revocation between the two reads of a request that is accepted. |
| `History.AcceptedTokensAreOwned` | internal/runtime/api.go:65-83 | A token accepted by two reads is the only one with its hash, names its run's own action, and belongs, at the second read, to a run with a live worker or a lost verdict. |
| `History.RecoveryLeavesNothingRunning` | internal/runner/runner.go:232-260 | Startup leaves no running run, interrupts those there were and revokes their tokens; a request whose second read comes right after is rejected, whenever its first read was. |
| `History.ClaimsRespectLimit` | internal/store/sqlite_store.go:869-896 | Right after each claim the action runs no more than its current limit. |
| `History.RunningWithinLargestLimit` | internal/store/sqlite_store.go:869-896 | Running runs of an action never exceed the largest limit it has had, across limit changes, crashes and recovery. |
| `History.AheadShrinks` | internal/store/sqlite_store.go:869-891 | While a run with a free slot waits, each claim strictly shrinks the set of queued runs no later than it. |
| `History.BoundedWaiting` | internal/runner/runner.go:291-307 | A waiting run whose action keeps a free slot is claimed within as many successful claims as there are queued runs created no later than it. |
| `History.RunsNameTheirOwnBuild` | internal/runner/runner.go:119-134 | Every stored run names an existing build whose own action and version are the run's. |
| `History.RunsTakeTheActivePair` | internal/runner/runner.go:106-134 | A queued run has the pair that was active when its preparation read the enabled action and whose build was seen to have succeeded, whatever happened to the action in between. |
| `History.UpdateUndoesIff` | internal/action/service.go:124-142 | In every history UpdateAction stores the active pair it read with the requested limit and flag, and so changes the pair exactly when the pair has changed since it read it. |
| `History.ActivationSurvivesIff` | internal/action/service.go:274-286 | An activation stored between an update's two statements survives the update if and only if it stored the pair that was active already. |
| `History.UpdateLosesAnActivation` | internal/action/service.go:124-142 | A history from an empty installation in which a checked activation is lost this way. |
| `Runner.FinishFollowsProtocol` | internal/runner/runner.go:453-475 | finishRun is a revocation step followed by a status step of the protocol. |
| `Runner.ExecuteFollowsProtocol` | internal/runner/runner.go:309-451 | executeRun, on every answer of sandbox, disk and database, is a path of enabled protocol steps that ends idle or takes the process down, with the same effect on the tables. |
| `Runner.ExecuteTouches` | internal/runner/runner.go:309-475 | Executing a run changes no other run and no other run's tokens. |
| `Runner.FateOfRun` | internal/runner/runner.go:309-511 | From tables and environment alone: Succeeded exactly for an ended entrypoint with no or zero exit code, TimedOut exactly for one that ran out of time, Failed for everything else but the panic on an empty bundle; stored iff one of five writes works; and the token record with its scopes, expiry and revocation time. |
| `Runner.ExecutionMints` | internal/runner/runner.go:324-342 | The first step of an execution with a token stores an expiry five minutes past the timeout, or past 60 seconds when that is not positive. |
| `Runner.Runner.RevokeTokensWithRetry` | internal/runner/runner.go:477-488 | Five attempts; succeeds iff one of them does, with the effect of one revocation. |
| `Runner.Runner.UpdateRunStatusWithRetry` | internal/runner/runner.go:490-511 | Five attempts; succeeds iff one of them does and the row exists. |
| `Runner.Runner.FinishRun` | internal/runner/runner.go:453-475 | Revokes and then stores the status even when the revocation failed every time. |
| `Runner.Runner.Attempt` | internal/runner/runner.go:351-451 | Which answers of endpoint, session, artifact, upload and command give which verdict, and that an empty artifact panics. |
| `Runner.Runner.ExecuteRun` | internal/runner/runner.go:309-451 | The whole execution has exactly the specified effect on the tables, in particular the status and the token record of FateOfRun, and does not return exactly for an empty bundle. |
| `Runner.Runner.Start` | internal/runner/runner.go:232-260 | Startup recovers iff one of three attempts succeeds, and otherwise changes nothing. |
| `Runner.Runner.DrainQueue` | internal/runner/runner.go:291-307 | Draining terminates and stops by itself only with every queued run's action saturated; each run it executed is terminal if one of its status writes succeeded and running otherwise, and every other run is untouched. |
| `Runner.ClaimedThenExecuted` | internal/runner/runner.go:291-307 | A claim followed by an execution changes one queued run's row and leaves it with exactly that fate. |
| `Scheduler.Scheduler.ListDueSchedules` | internal/store/sqlite_store.go:523-557 | Distinct enabled schedules whose time has come, earliest first, as many as the limit allows; all of them below the limit, and none left out that is earlier. |
| `Scheduler.Scheduler.AdvanceScheduleNextRun` | internal/store/sqlite_store.go:510-521 | Sets the next run time of one schedule iff it exists. |
| `Scheduler.Scheduler.RecordScheduleOccurrence` | internal/store/sqlite_store.go:561-609 | Occurrence, run and advance are stored together iff the keys are free and nothing fails; a failure at any operation leaves all three tables unchanged. |
| `Scheduler.Scheduler.ProcessDueSchedule` | internal/scheduler/scheduler.go:136-182 | One due schedule: advance by an hour on a bad expression, only advance on a bad context or failed preparation, record otherwise. |
| `Scheduler.Scheduler.Tick` | internal/scheduler/scheduler.go:121-134 | Processes the due list in order, continuing past failures, up to a cancellation; a failing query processes nothing. |
| `Scheduler.ProcessOne` | internal/scheduler/scheduler.go:136-182 | A smooth step takes its schedule out of the due set with at most one new occurrence and touches no other schedule. |
| `Scheduler.TickDrains` | internal/scheduler/scheduler.go:121-134 | A smooth tick takes exactly min(batch, due) schedules out of the due set, gives each listed one that is runnable exactly one new occurrence with its prepared run stored, and gives the others none. |
| `Scheduler.TicksDrain` | internal/scheduler/scheduler.go:121-134 | k ticks at a fixed time leave max(0, due - k * batch) due, and no schedule gets more than one run in the process. |
| `ScheduleHistory.SharedInvariant` | internal/store/db.go:73-79 | With any number of schedulers, occurrences map one-to-one into existing schedule-triggered runs, and only valid contexts are stored. |
| `ScheduleHistory.OneRunPerScheduledTime` | internal/store/sqlite_store.go:561-609 | A second occurrence for the same schedule and time can only be recorded after the schedule has been dropped. |
| `ScheduleHistory.OccurrenceRunAndAdvanceTogether` | internal/store/sqlite_store.go:561-609 | An occurrence appears in the same step as its run and the schedule's advance to the next cron time. |
| `ScheduleHistory.DueScheduleGetsItsRun` | internal/scheduler/scheduler.go:136-182 | However often it has run before, a due schedule's run, occurrence and advance are recorded if and only if the schedule exists, cron has a next time, a run was prepared, nothing fails and both keys are free. |
| `ScheduleHistory.UnrecordedStepOnlyAdvances` | internal/scheduler/scheduler.go:138-171 | A step that records nothing stores at most the advance: to the next time without a prepared run, by one hour without a next time, and nothing when a run was to be recorded. |
| `ScheduleHistory.DeliveryCheckNeverFails` | internal/scheduler/scheduler.go:158-163 | The delivery check of a due schedule never fails in any history. |
| `ScheduleHistory.OccurrencesBeforeNextRun` | internal/scheduler/scheduler.go:136-182 | With one scheduler and any clock, every recorded occurrence lies before its schedule's next run. |
| `ScheduleHistory.NextRunOnlyAdvances` | internal/scheduler/scheduler.go:136-182 | With one scheduler next_run_at never moves back, and each stored processing step moves it strictly forward. |
| `ScheduleHistory.NoDuplicateOccurrence` | internal/store/sqlite_store.go:574-590 | With one scheduler the duplicate-occurrence branch is unreachable. |
| `ScheduleHistory.NextRunMovesBackIff` | internal/scheduler/scheduler.go:136-182 | For any number of schedulers and any clocks: only a processing step whose write goes through changes a schedule's row; it moves next_run_at back if and only if the time it writes is before the stored one, and always forward when the stored row is due at the round's clock, as the listed row is. |
| `ScheduleHistory.TwoSchedulersMoveBack` | internal/scheduler/scheduler.go:136-182 | A history of two schedulers in which next_run_at moves back, with the last step skipping or recording. |
| `Versions.VersionIdInjective` | internal/action/service.go:175-176 | Version ids are unique over all actions and numbers, whatever characters the action ids hold. |
| `Versions.DistinctNamesDetermineBundle` | internal/store/source_artifact_store.go:38-85 | When cleaned names stay distinct, the staged directory is determined by the request and holds every file. |
| `Versions.StageSourceBundle` | internal/store/source_artifact_store.go:38-85 | In any order of names, staging fails exactly on a disk failure, an uncleanable name or a file that is another's directory; otherwise every file is there under its cleaned name and nothing else. |
| `Versions.UnstageableIff` | internal/store/source_artifact_store.go:54-76 | Names cannot be staged exactly when one is not acceptable or the components of one begin another's. |
| `Versions.StoredDirStays` | internal/action/service.go:149-232 | No step of any creation, failure, crash or cleanup touches the directory of a stored version. |
| `Versions.RowsStay` | internal/action/service.go:149-232 | A version row never changes and disappears only with its action. |
| `Versions.KeepsNoGap` | internal/store/sqlite_store.go:209-217 | No step opens a gap below a stored version number. |
| `Versions.StepKeepsInv` | internal/action/service.go:149-264 | Every step, crashes included, keeps rows, directories and numbers consistent. |
| `Versions.StoredVersionsHaveTheirFiles` | internal/action/service.go:218-230 | In every reachable state each version row's directory exists and holds the cleaned files it was created from. |
| `Versions.StoredFilesReadBack` | internal/store/source_artifact_store.go:155-182 | Each file of a stored version's request is found under its cleaned name with its bytes. |
| `Versions.VersionNumbersHaveNoGaps` | internal/store/sqlite_store.go:209-217 | In every reachable state an action's version numbers are exactly 1 to n, where n + 1 is the next number. |
| `VersionService.Service.GetNextVersionNumber` | internal/store/sqlite_store.go:209-217 | One more than the action's largest version number, or 1. |
| `VersionService.Service.MoveIntoPlace` | internal/store/source_artifact_store.go:87-107 | The staged files are moved exactly when the rename does not fail and the destination is free; otherwise they are discarded. |
| `VersionService.Service.InsertRow` | internal/store/sqlite_store.go:157-189 | The row is stored exactly when the statement does not fail, the action exists, and id and number are free. |
| `VersionService.Service.CreateVersion` | internal/action/service.go:149-232 | The exact answer for every request and everything disk, database and process can do, each error if and only if its own condition holds (too large: more than 20 MiB of an existing action's files), and success for every admitted and stageable request when nothing fails; success stores exactly the next number with its files in place and nothing left staged; an error or crash leaves the rows as they were; every path follows the protocol. |
| `VersionService.OutcomeEnds` | internal/action/service.go:170-230 | How an admitted creation ends, each answer with its cause, up to where a crash comes first. |
| `VersionService.Service.ReadSourceBundle` | internal/store/source_artifact_store.go:155-182 | Walking a version's files in any order yields exactly its directory. |
| `VersionService.Service.CleanOrphanedVersions` | internal/action/service.go:236-264 | Removes exactly the visited directories without a row of this action, counts them, and stops at a failing listing or the first lookup or delete error, where a failed delete may leave any rest; every other directory is as it was. |
| `VersionService.FullSweep` | internal/store/source_artifact_store.go:116-133 | Visiting every listed name leaves no orphan, because the listing has every directory of the action. |
| `DotEnv.ParseValue` | internal/config/env.go:190-269 | The value parser, total on all byte strings, equals its recursive reading. |
| `DotEnv.ParseDouble` | internal/config/env.go:196-242 | The quoted-value loop with its escaped and closed flags never indexes past the end and equals the recursive scan. |
| `DotEnv.ParseEnvReader` | internal/config/env.go:140-188 | The scanner loop stops at the first bad line and otherwise lets later assignments win. |
| `DotEnv.QuotedValue` | internal/config/env.go:190-269 | A printed quoted value is read back whatever bytes it holds. |
| `DotEnv.EscapeIsRead` | internal/config/env.go:204-223 | An escape anywhere in a quoted value is read as newline, carriage return, tab, quote, backslash or dollar sign, and kept as it stands when it is none of these. |
| `DotEnv.AfterTheQuote` | internal/config/env.go:232-241 | After a closing double quote only white space and a comment may follow. |
| `DotEnv.UnclosedQuotes` | internal/config/env.go:232-250 | A double or single quote that is not closed is an error. |
| `DotEnv.PrintedLine` | internal/config/env.go:140-188 | A printed line is read as exactly its assignment, as first line too. |
| `DotEnv.PrintThenParse` | internal/config/env.go:140-269 | Parsing the printed lines of any assignments to identifiers gives those assignments, later ones winning. |
| `DotEnv.MapRoundTrip` | internal/config/env.go:140-269 | For every map from identifiers to byte strings, printing its entries in any order and parsing returns the map. |
| `DotEnv.UnquotedEndsAtComment` | internal/config/env.go:258-269 | An unquoted value ends just before its first comment mark. |
| `DotEnv.SingleQuotedValue` | internal/config/env.go:243-256 | Single quotes keep every byte but the quote; after the closing one only a comment may follow. |
| `DotEnv.PlainValue` | internal/config/env.go:258-269 | A trimmed value with no quote in front and no comment mark is read as it stands. |
| `DotEnv.CommentIsDropped` | internal/config/env.go:258-269 | A number sign behind a space or tab, and all after it, is no part of an unquoted value. |
| `DotEnv.LinesAre` | internal/config/env.go:143-149 | Lines end at a newline, with or without a carriage return before it, or at the end of the text. |
| `DotEnv.SkippedLines` | internal/config/env.go:154-172 | Blank lines, comment lines and lines without an equals sign set nothing. |
| `DotEnv.AssignmentLine` | internal/config/env.go:149-181 | A line sets its key to what its value reads as, behind an export and, on the first line, behind a byte-order mark too. |
| `DotEnv.ParsesAs` | internal/config/env.go:140-188 | A file is refused at its first bad line, and otherwise sets exactly the variables some line sets, each to the value of its last such line. |
| `StatePath.SanitizeCharacterised` | internal/store/state_store.go:36-70 | sanitizeStatePath accepts exactly the acceptable paths and answers their normal components; and which of its two errors it answers. |
| `StatePath.CleaningLeadsTheSameWay` | internal/store/state_store.go:61 | Cleaning changes nothing about where a path leads, component by component, from any directory. |
| `StatePath.ActionIdRefusedIff` | internal/store/state_store.go:28-34 | An action id is refused exactly when it is blank or holds a slash, backslash, dot or NUL. |
| `StatePath.SanitizeIsIdempotent` | internal/store/state_store.go:36-70 | What is accepted is a non-empty relative path with no empty, dot or dot-dot component, and sanitising again changes nothing. |
| `StatePath.ResolvedInside` | internal/store/state_store.go:72-100 | Every resolved path lies strictly inside its action's state directory and is where the path given leads from there. |
| `StatePath.ResolveSeparates` | internal/store/state_store.go:72-100 | Two accepted paths resolve alike iff they are of one action and clean alike. |
| `StatePath.ResolveAccepts` | internal/store/state_store.go:72-100 | Exact acceptance, with the final check also rejecting first components that merely begin with two dots. |
| `StatePath.WritesStayInside` | internal/store/state_store.go:103-149 | A write for one action, complete or interrupted, changes no read for another action. |
| `StatePath.ReadAfterWrite` | internal/store/state_store.go:103-158 | A read after a write sees the data exactly when the cleaned paths agree, and is otherwise unchanged. |
| `StatePath.StateStore.WriteState` | internal/store/state_store.go:103-149 | Succeeds exactly when no operation fails, the path is accepted and no file or directory is in the way, in a tree where every stored file has its directories; otherwise the target is unchanged. |
| `StatePath.NoFileInTheWay` | internal/store/state_store.go:103-149 | A write that can succeed needs no stored file as a directory and is no directory of a stored file. |
| `StatePath.CanWriteIff` | internal/store/state_store.go:103-149 | A write can succeed exactly when its path is accepted, no stored file is a directory on its way and its target is no directory. |
| `StatePath.StateStore.ReadState` | internal/store/state_store.go:151-158 | Reads the resolved file, if the path is accepted and the file exists. |
| `Base64.DecodeEncode` | internal/sandbox/client.go:423-429 | Decoding inverts encoding on every byte string. |
| `Base64.Alphabet` | internal/sandbox/client.go:423 | The letters are those of the standard alphabet, in its order. |
| `Base64.TripleIsBigEndian` | internal/sandbox/client.go:423 | Three bytes and their four letters are the same 24 bits, most significant first. |
| `Base64.DecodesIff` | internal/runtime/api.go:140-146 | The decoder accepts exactly whole groups of four letters with padding in the last one or two places only. |
| `Base64.Transported` | internal/sandbox/client.go:423-506 | The encoding survives the here-document's newline and the reader's trimming, and is empty only for no bytes. |
| `Base64.DecodePart` | internal/sandbox/client.go:498-516 | Any beginning of an encoding decodes to the whole groups of three bytes it holds, and to nothing but an error when it ends inside a group. |
| `Base64.PartTransported` | internal/sandbox/client.go:498-516 | The same for output cut anywhere as the reader trims and decodes it. |
| `SandboxClient.Client.UploadFile` | internal/sandbox/client.go:383-442 | Only the destination changes; exactly when success is reported, exactly when a reported success means that the file is stored, and that it is then below /sandbox under every spelling of its path. |
| `SandboxClient.Client.UploadFiles` | internal/sandbox/client.go:376-444 | In any order of files, success without shared destinations stores every file below /sandbox, except an empty one whose creation was refused, which holds what that command left; nothing but the destinations changes. |
| `Transfer.EveryPathSpellsOne` | internal/sandbox/client.go:384-386 | Every path is a spelling (bare, with a slash, with sandbox/, with /sandbox/) of exactly one file below /sandbox. |
| `Transfer.DestOf` | internal/sandbox/client.go:384-386 | An upload of any spelling of q writes /sandbox/q, or the target of that link. |
| `Transfer.LocateOf` | internal/sandbox/client.go:458-465 | An export of any spelling of q finds it under /sandbox when it is there, and only otherwise under the root. |
| `Transfer.ExportComesBack` | internal/sandbox/client.go:449-527 | What an export returns for any spelling is the file found there, unless its name ends in white space. |
| `Transfer.EmptyUploadStoresIff` | internal/sandbox/client.go:407-418 | A reported success of an empty file's upload means an empty file if and only if the creation was not refused or left one by chance. |
| `Transfer.RefusedCreationKeepsOldFile` | internal/sandbox/client.go:407-418 | The failing input: the upload reports success and the old file keeps every byte. |
| `SandboxClient.Client.ExportFile` | internal/sandbox/client.go:486-523 | On every answer of the sandbox, blocks cut at any byte included, what is returned and after how many commands; the whole file exactly when it fits and its blocks are delivered. |
| `SandboxClient.Client.ExportFiles` | internal/sandbox/client.go:449-527 | On every answer of the sandbox, what is returned; every located file whole exactly when the distinct files total at most 64 MiB and every path is served; when every command works the size alone decides, and each spelling brings back the file under /sandbox, or else under the root; and only beginnings of files otherwise. |
| `ExportRun.ReadIsWholeIff` | internal/sandbox/client.go:486-523 | The block loop returns the whole file if and only if it fits the rest of the budget, every block with bytes arrives whole (a refusal after the last letter included), and the look past a file of whole blocks is answered. |
| `ExportRun.CutShortIff` | internal/sandbox/client.go:489-523 | A file is silently cut to its first m bytes, for any m, if and only if they fit, every block before is delivered, and the command for the block of byte m is refused having read just up to it and printed all that, or having read more and stopped printing at a whole group of three bytes that ends there. |
| `ExportRun.SmoothRunIsExact` | internal/sandbox/client.go:449-527 | When every command does its work the export is exact if the distinct files fit and fails for their size otherwise; aliases count once. |
| `ExportRun.ExportIsWholeIff` | internal/sandbox/client.go:449-527 | Success with every located file whole, if and only if the distinct files fit, every locate command is answered, every path is located at one of its occurrences, and every file met is read whole. |
| `ExportRun.RunGivesBeginnings` | internal/sandbox/client.go:449-527 | Whatever is refused, only located paths and beginnings of their files are returned. |
| `ExportRun.RefusedLocateLosesTheFile` | internal/sandbox/client.go:457-478 | The failing input: a refused locate command makes the export succeed without a file that exists. |
| `ExportRun.RefusedBlockCutsShort` | internal/sandbox/client.go:489-523 | The failing input: a block command refused after printing a part makes the export succeed with the bytes up to there only. |
| `Transfer.UploadThenExport` | internal/sandbox/client.go:376-527 | Upload followed by export is the identity on all contents and lengths, and the budget charged is exactly the bytes uploaded. |
| `Transfer.RoundTripIffNamesSurvive` | internal/sandbox/client.go:452-478 | Paths without shared destinations come back from every upload, whatever the contents, if and only if no destination loses its name when white space at its end is dropped. |
| `Runtime.Authenticate` | internal/runtime/api.go:49-90 | Two reads, of which either may fail: for a token sent behind Bearer, or without that in its own header, accepts exactly the record with its hash that is valid at the first read and whose run is running at the second; without a token, nothing. |
| `Runtime.CallCore` | pkg/actionscat/sdk.go:69-92 | What the SDK sends from a run's own environment is looked up as exactly that run's token text. |
| `Runtime.RunsTokenOpensIff` | internal/runtime/api.go:65-83 | Looking up a minted token's hash gives that run's record and no other, exactly while it is neither revoked nor expired and the run is running. |
| `Runtime.DeadSecretsOpenNothing` | internal/runtime/api.go:65-83 | After a run's terminal status or revocation is stored, no record at all is accepted for its secret by a request that reads later. |
| `Runtime.HandleWriteState` | internal/runtime/api.go:109-169 | Each answer if and only if its own condition holds (too large: more than 5 MiB); success stores exactly the payload at the resolved path under the token's action. |
| `Runtime.PayloadIs` | internal/runtime/api.go:138-150 | Plain data are stored as they are; base64 data as the bytes they encode, and are refused exactly when not well-formed. |
| `Runtime.WritesBelongToTheRunsAction` | internal/runtime/api.go:156-158 | In any history an accepted request changes reads of the token's own run's action only, whatever action the body names. |
| `Runtime.WrittenStateIsInjected` | internal/runner/runner.go:151-168 | What an accepted request stores reaches the action's next run: planned from the files after the write, an injection of any path that cleans alike puts those bytes into its variable unless a later injection or the delivery context names it. |
| `Runtime.WrittenIsRead` | internal/runtime/api.go:109-169 | The reader of the planner sees written data at every path that cleans alike. |
| `Delivery.EnvironmentFields` | internal/domain/delivery.go:46-60 | Each event variable carries its own field. |
| `Delivery.EnvironmentIs` | internal/domain/delivery.go:46-60 | The seven variables by name, each with its own field. |
| `Delivery.InvalidIff` | internal/domain/delivery.go:19-44 | A context is refused for exactly the reasons of Validate. |
| `Planning.PlanEnvironment` | internal/runner/runner.go:136-182 | The map loops, in any order of iteration, compute the layered environment and its limits. |
| `Planning.AddInjections` | internal/runner/runner.go:151-168 | Injections apply in order, the first failing one deciding the error. |
| `Planning.PlannedVariable` | internal/runner/runner.go:136-182 | Delivery context over the last injection over extra variables over the base; at most 2 MiB in all and 1 MiB for each extra or injected value. |
| `Planning.PlanSucceedsIff` | internal/runner/runner.go:136-182 | Planning succeeds exactly when every extra and injected value, overridden ones included, is readable and at most 1 MiB, and the layered result totals at most 2 MiB, names included. |
| `Planning.PlanFailsWith` | internal/runner/runner.go:136-182 | Why it fails: an extra value that is too large comes first, then the first injection that cannot be made, with its own reason, then the total. |
| `Planning.PlannedIdentity` | internal/runner/runner.go:136-141 | A run finds its own action, version, build and trigger in its environment unless its extra variables or injections name those. |
| `Planning.SandboxVariables` | internal/runner/runner.go:381-386 | The sandbox adds run id, endpoint and token under their names and leaves every other variable as planned. |
| `Planning.LastInjectionWins` | internal/runner/runner.go:151-168 | Of several injections into one variable the last one's data is kept. |
| `Planning.InjectedValue` | internal/runner/runner.go:151-173 | In a planned environment a variable holds the data read by the last injection that names it, unless the delivery context does. |
| `Routing.SessionParsersAgree` | pkg/actionscat/sdk.go:165-175 | The SDK's and the Core's session parsing agree on all strings. |
| `Routing.SessionRoundTrip` | internal/frostagent/client.go:129-160 | Parsing platform:type:target gives the fields back for trimmed fields, colon-free platform and type, and any colons in the target. |
| `Routing.SessionIs` | internal/frostagent/client.go:129-142 | A session gives the text before its first colon, up to its second, and all the rest, each trimmed. |
| `Routing.NoRouteWithoutColons` | internal/frostagent/client.go:129-142 | With fewer than two colons it gives nothing. |
| `Routing.NormalizeIsIdempotent` | internal/frostagent/client.go:129-201 | Normalising an accepted request twice is normalising it once. |
| `Routing.RoutedIs` | internal/frostagent/client.go:129-146 | A request's own routing first, then its session's, then group as the type; nothing else changes. |
| `Routing.NormalizedIs` | internal/frostagent/client.go:148-198 | Every field of every message of the normal form, for requests with and without messages. |
| `Routing.RefusedIff` | internal/frostagent/client.go:148-156 | A request is refused exactly without messages, attachments and a body that is not blank. |
| `Routing.SendMessageRequest.Normalize` | internal/frostagent/client.go:129-201 | The in-place normalisation accepts exactly requests with something to send and leaves the normal form. |
| `Routing.SendMessageRequest.RouteFields` | internal/frostagent/client.go:129-160 | Session parts fill only empty routing fields. |
| `Routing.HandleSend` | internal/runtime/api.go:171-225 | Scope, instance id and content are checked in order, and what is delivered is the doubly normalised request. |
| `Routing.DeliveredIff` | internal/runtime/api.go:171-225 | Each answer if and only if its own condition holds, and a delivered request is the normal form. |
| `Routing.DeliveredIsNormal` | internal/runtime/api.go:200-218 | What is delivered carries no instance id, has at least one message, each with a type, and is a fixed point of normalisation. |
| `Routing.PlanCarries` | internal/runner/runner.go:170-173 | A planned environment carries the delivery context whatever injections and extra variables say. |
| `Routing.SandboxRouting` | internal/runner/runner.go:381-386 | The three sandbox variables leave the routing variables alone, so the SDK reads the delivery context back. |
| `Routing.ContextIs` | pkg/actionscat/sdk.go:42-61 | Each field of the SDK's context comes from its own variable. |
| `Routing.ReplyGoesTo` | pkg/actionscat/sdk.go:187-218 | From any context: a reply is refused exactly without a target or configuration, and otherwise delivers one plain message to the explicit target, else the group, else the user, else the session. |
| `Routing.ReplyReachesTheSchedulesTarget` | pkg/actionscat/sdk.go:187-218 | From a schedule's delivery context to FrostAgent: Reply delivers one message to exactly that platform, type and target, with the adapter id in the metadata. |
| `Matcher.CapturesNeverOverride` | internal/matcher/engine.go:64-71 | The five event variables hold the event's fields whatever was captured, and every other variable is a capture. |
| `Matcher.EventVariables` | internal/matcher/engine.go:64-71 | The five event variables by name, each with its own field. |
| `Matcher.EventReachesTheRun` | internal/matcher/engine.go:64-87 | In a matched run's planned environment an event variable not injected holds the event's value. |
| `Matcher.ReplyReachesTheEventsChat` | internal/matcher/engine.go:64-87 | From a matched event back to its chat: unless captures or injections name the routing variables, a run's reply goes to the event's group, else its user, else its session. |
| `Matcher.FieldIs` | internal/matcher/engine.go:146-166 | Which part of the event a matcher looks at: one of five by name, up to capitals, otherwise the metadata under exactly that key. |
| `Matcher.MatchesIff` | internal/matcher/engine.go:104-144 | A matcher matches exactly when its field equals the pattern, has it inside, or the pattern compiles and finds something; only the last captures. |
| `Matcher.CapturesAre` | internal/matcher/engine.go:128-138 | A variable is captured with a text exactly when that is the text of the last group exported to it. |
| `Matcher.PicksAreDeclarative` | internal/matcher/engine.go:54-101 | The loop's choice is exactly the trials that matched with a run created and no earlier one of these that ends the search, each once and in order. |
| `Matcher.DispatchesAre` | internal/matcher/engine.go:54-101 | An event dispatches exactly the matchers that match, whose run is created, and before which no such matcher asked to stop, each with its own captures and the event's variables. |
| `Matcher.IdleIsInvisible` | internal/matcher/engine.go:88-91 | A matched matcher whose run cannot be created never stops the search: it is as good as absent. |
| `Matcher.StopperComesFirst` | internal/store/sqlite_store.go:696-717 | The matcher that ends the search is no later, by priority and age, than any other that would have. |
| `Matcher.Engine.EvaluateMatcher` | internal/matcher/engine.go:104-144 | The three match types and the capture loop, independently of what the regex cache holds. |
| `Matcher.Engine.MatchAndDispatch` | internal/matcher/engine.go:46-101 | Dispatches the choice up to cancellation; without cancellation, the whole choice. |

## Left out

- Versions.StageSourceBundle: the digest is not modelled; the hashed stream does not determine the bundle, because names and contents are only separated by NUL. The order in which names are written is left open, which covers the sorted order of the code.
- Versions.StepKeepsInv: a failed removal leaves an arbitrary rest behind; which part of a directory survives is not modelled.
- Runner.Runner.DrainQueue: one worker drains alone here, and which status a run ends with is in Attempt; the interleaving of several workers is the subject of Protocol and History. Cancellation of the context between claims is not modelled.
- Runner.Runner.ExecuteRun: output texts, truncation of captured output, the runtime environment passed on, and the release of the sandbox session are not part of the tables and are not modelled.
- Runner.Runner.Start: sleeping between attempts, goroutines and wake-up channels are not modelled; Protocol's Start event creates the worker pool.
- Scheduler.Scheduler.Tick: due schedules with equal times may be listed in any order, as in the query; the loop and ticker around Tick, and time limits of single statements, are not modelled.
- Scheduler.Scheduler.ProcessDueSchedule: PrepareRun is a parameter here; its environment is in Planning and its two reads are events of Protocol. Cron expressions and time zones are a parameter.
- DotEnv.ParseEnvReader: the scanner's limit on line length and read errors are not modelled.
- StatePath.StateStore.WriteState: symbolic links, permissions and durability after a power loss are not modelled.
- SandboxClient.Client.UploadFiles: paths are taken as the shell sees them; quoting of characters that the shell expands inside double quotes is not modelled, nor are command time limits.
- SandboxClient.Client.ExportFiles: a refused locate command prints nothing in the model; a canonical name cut in the middle is not modelled. The output of a refused block command is cut anywhere, before or after its encoding.
- Runtime.HandleWriteState: limits on the HTTP body and JSON errors are not modelled.
- Runtime.Authenticate: the hash is a parameter; nothing is claimed about its collisions beyond the table's uniqueness. A request accepted before a revocation may still finish after it.
- Matcher.Engine.MatchAndDispatch: regular expressions are a parameter; whether CreateRun succeeds is an answer for each position, so that concurrent edits are covered. Trigger metadata is not modelled.
- Matcher.Engine.EvaluateMatcher: lower-casing is modelled as far as it can produce ASCII letters of the field names.
- Routing.SendMessageRequest.Normalize: message fields that normalisation neither reads nor writes (mentions, ids, stickers, sizes, MIME types) are not modelled.
- Routing.ReplyReachesTheSchedulesTarget: the HTTP transport of the SDK and of the FrostAgent client, with time-outs and status codes, is not modelled.
- MarkRunRunning, UpdateSchedule and SaveSourceBundle: only tests call them.
- The API's create, read, update and delete handlers, gin routing, sandbox session negotiation and release, the gateway's headers, the build service and the example actions: plumbing around the modelled core.
