# A verified model of the incident-response service

The service is an event-sourced controller: a SQLite journal is the truth, memory mirrors it, and work
outside the process (provider calls, container runs) is reserved durably before it starts. This project
models its hardest parts in Dafny and proves what they promise.

Each object the source updates in place is a class here. Its methods follow the source's branches and
loops and are proved against functions on values (named `...Tx`, or a noun for what is computed). The
theorems are lemmas about those functions, mostly over every run of a small state machine whose steps
include crashes, failed writes and restarts. Lemmas named `...Exactly` say, in terms of inputs and tables, when an
operation succeeds, what it answers and what it leaves.

## Parts

- **Sandbox jobs** (`Jobs`, `SandboxProtocol`, `Runner`, `RunnerProtocol`): the durable launch intent, the
  token-labelled container, and recovery after a crash, as a protocol over single effects, and the code as
  runs of it. One launcher creates at most one container; tokens and container IDs are never drawn twice.
- **Manual validation** (`ManualValidation`, `ValidationProtocol`, `AutomaticDispatch`): reservations,
  receipts, failures and operator recovery; the expiry window as a lease between responder and worker on
  one monotone clock; the automatic dispatch that reserves once per incident.
- **Incidents** (`Dispatcher`, `IncidentId`, `Calendar`, `Decimal`): the lifecycle, its rebuild from the
  journal, the ID format, and the calendar arithmetic of event times.
- **Repair artifacts** (`ComposeImage`, `Patch`, `Lines`, `BatchParser`, `Text`): the one-scalar rewrite,
  its one-hunk patch with a reader that applies it, and the two parsers of Git output with their printers.
- **Durable state** (`JournalStore`, `CostLedger`, `Qualification`, `Health`): the journal and its mirror,
  the cost ledger, deployment qualification, and health coverage.
- **Reasoning** (`Budget`, `Coordinator`, `Runtime`, `ToolLoop`, `Investigation`): the budget, the
  fallback state machine, the scripted run, and the nested live loop over providers and tools.
- **Redaction** (`Redactor`, `Secrets`, `Evidence`): the evidence scanner, when its output does not depend on
  the values it replaces, and the board that keeps its output.
- `Outcomes` holds the option and result types.

## Where the code does less than it seems to promise

Each comes with the input that shows it and the condition under which the code does meet it.

- A duplicate resolution advances the live time but not the rebuilt one
  (`Dispatcher.LaterResolutionDiverges`); live and rebuilt state are equal exactly while every key shows its
  newest recovery fact (`Dispatcher.JournalRebuildsExactly`), and an opening restores that
  (`Dispatcher.OpeningRestores`).
- A key that brings the episode separator into its ID is rebuilt under another key
  (`Dispatcher.EpisodeLikeKeyDiverges`, `Dispatcher.RebuildNeedsPlainKey`, `IncidentId.FirstIdReads`).
- Completing an old episode's ID closes the key's current episode
  (`Dispatcher.FirstReportEndsSecondEpisode`, `Dispatcher.CompletionEndsItsEpisodeExactly`).
- A launcher killed before it created its container leaves a row no recovery clears
  (`SandboxProtocol.KilledLauncherWedges`, `SandboxProtocol.RecoverableExactly`).
- A ceiling of i64::MAX refuses nothing, and the ledger can overflow
  (`CostLedger.MaximumCeilingOverflows`, `CostLedger.CeilingsHoldExactly`).
- A budget without a cost ceiling, or with a ceiling at a type's maximum, can wrap
  (`Budget.UnboundedCostWraps`, `Budget.NeverWrapsExactly`).
- The scan of a text can pass over a sensitive key, whose value then shows
  (`Redactor.SwallowedKeyShowsSecret`, `Secrets.OneBlankDecides`); which values are hidden is decided by where
  the scan of the text in front stands (`Secrets.ValuesHiddenExactly`, `Secrets.QuotedHiddenExactly`,
  `Secrets.TokensHiddenExactly`).
- The deterministic provider of the live loop cites no evidence and therefore never succeeds
  (`Investigation.LiveInvestigation.RunProvider`), although it is described as the final fallback.

## Model

| member | source | states |
|---|---|---|
| `SandboxProtocol.WorkloadsAlwaysNamed` | src/gitops/sandbox/runner.rs:144-203 | In every reachable interleaving of owners, crashes, cancellations, launchers and foreign containers, each launcher that may still create a container and each container with one of this store's tokens is named by the durable `active` row, and there is at most one of them |
| `SandboxProtocol.SpentCreatesNothing` | src/gitops/sandbox/runner.rs:144-203 | A launcher that has created its container never creates another, in any continuation |
| `SandboxProtocol.LauncherOutlivesRow` | src/gitops/sandbox/runner.rs:144-203 | Such a launcher can still run when its row is cleared: a reachable world, after a crash and a recovery, in which one does, with no row, no container and nothing left to create |
| `SandboxProtocol.StepKeepsInv` | src/gitops/sandbox/runner.rs:355-438 | Every single effect of validate, cleanup, recovery, the environment and a crash keeps the invariant behind that theorem |
| `SandboxProtocol.RunKeepsInv` | src/gitops/sandbox/runner.rs:510-545 | So does every run of them |
| `SandboxProtocol.CreationExactly` | src/gitops/sandbox/runner.rs:510-545 | When a launcher creates its container, and which containers strangers may create |
| `SandboxProtocol.LossExactly` | src/gitops/sandbox/runner.rs:510-545 | What may exit, vanish, crash or come back around the worker, at any time |
| `SandboxProtocol.ClearedLaunchNeverReturns` | src/gitops/sandbox/jobs.rs:252-264 | Once a token has left the row, nothing carrying it runs, then or after any continuation: `clear` never orphans a workload |
| `SandboxProtocol.RetiredForever` | src/gitops/sandbox/jobs.rs:203-250 | A token that left the row never becomes the row's again |
| `SandboxProtocol.SpawnFindsNothingRunning` | src/gitops/sandbox/runner.rs:355-438 | A launcher is started only when nothing of any earlier launch runs or can appear |
| `SandboxProtocol.DeletionsAreOwned` | src/gitops/sandbox/runner.rs:144-203 | Removal deletes only a container with the row's token; a leased directory goes only while nothing that mounts it can run, and no leased directory outlives its row |
| `SandboxProtocol.RecoverableExactly` | src/gitops/sandbox/runner.rs:144-203 | A crashed launch whose launcher is gone can be reconciled if and only if its container was recorded or still exists; otherwise every later launch is refused forever |
| `SandboxProtocol.RecoveryScriptClears` | src/gitops/sandbox/runner.rs:144-203 | The undisturbed reconciliation of a new owner ends with the row cleared, that container and the snapshot directory gone, and everything else as it was |
| `SandboxProtocol.WedgedForever` | src/gitops/sandbox/runner.rs:144-203 | A store whose launcher died before creating its container stays blocked in every continuation |
| `SandboxProtocol.KilledLauncherWedges` | src/gitops/sandbox/runner.rs:144-203 | The failing input: in a new store one launcher killed before it creates its container leaves a row that no continuation ever clears |
| `SandboxProtocol.CrashedJobRecovers` | src/gitops/sandbox/runner.rs:144-203 | In any reachable world that allows a launch, one whose owner dies after its container appeared is reconciled by the next undisturbed owner, leaving no row and no such container |
| `Runner.RecoverClearsExactly` | src/gitops/sandbox/runner.rs:144-203 | `recover_pending` clears the row exactly when the container was identified as this launch's, or a recorded one is gone, was removed, and the snapshot was released |
| `Runner.RecoverSucceedsExactly` | src/gitops/sandbox/runner.rs:144-203 | A reconciliation succeeds if and only if the binary is pinned, an identity is given that the store is bound to or may be bound to, and what is pending, if anything, is cleared; the result says which error it is |
| `Runner.NothingPendingSucceeds` | src/gitops/sandbox/runner.rs:144-203 | With no row, that identity is bound and the answer is success, whatever else the control calls would say |
| `Runner.UnfinishedRecovery` | src/gitops/sandbox/runner.rs:144-203 | A failed reconciliation leaves the row as it was, or with its container's ID now known |
| `Runner.OwnedExactly` | src/gitops/sandbox/runner.rs:612-624 | A container counts as the job's if and only if its ID is 64 hexadecimal digits and name and token are the job's |
| `Runner.RecoverKeepsKnownContainer` | src/gitops/sandbox/jobs.rs:266-273 | A remembered container ID is never replaced |
| `RunnerProtocol.RecoverFollowsProtocol` | src/gitops/sandbox/runner.rs:144-203 | For all answers of the control calls that are true when given, and all moves of the environment in between, the effects of `recover_pending` are protocol steps that end in the tables and the ownership the code leaves |
| `RunnerProtocol.CleanupFollowsProtocol` | src/gitops/sandbox/runner.rs:510-545 | So are those of `cleanup`, from the kill of the held child on |
| `RunnerProtocol.ValidateFollowsProtocol` | src/gitops/sandbox/runner.rs:355-438 | So are those of a whole `validate`, launch refused or started, whatever the workload ends in: the code keeps the protocol's invariant and has every property of its runs |
| `RunnerProtocol.RecoverIsProtocol` | src/gitops/sandbox/runner.rs:144-203 | Run undisturbed, the code of `recover_pending` ends in the tables the protocol's reconciliation script ends in |
| `Runner.CleanupClears` | src/gitops/sandbox/runner.rs:510-545 | A cleanup succeeds only with nothing pending and nothing held, after the pending container was identified as its launch's and removed and the snapshot released |
| `Runner.CleanupSucceedsExactly` | src/gitops/sandbox/runner.rs:510-545 | A cleanup succeeds if and only if the child can be killed and the container is gone or its own and removed, and the snapshot released |
| `Runner.ReceiptNeedsRemoval` | src/gitops/sandbox/runner.rs:355-438 | A receipt escapes only after this launch's own container was found under its token and removed, its snapshot released and its row cleared; a row a launch leaves behind is its own |
| `Runner.ValidateExactly` | src/gitops/sandbox/runner.rs:355-438 | A launch is recorded if and only if the reconciliation succeeded, the preflight holds, a lease and a sequence are left; it returns its workload's result if and only if it spawned and its cleanup succeeded, and otherwise the error that stopped it |
| `Runner.RootlessValidator.constructor` | src/gitops/sandbox/runner.rs:133-142 | A connected validator holds no job |
| `Runner.RootlessValidator.RecoverPending` | src/gitops/sandbox/runner.rs:144-203 | The method leaves the tables and the result of the specified recovery, which succeeds exactly as `Runner.RecoverSucceedsExactly` and `Runner.NothingPendingSucceeds` say |
| `Runner.RootlessValidator.Cleanup` | src/gitops/sandbox/runner.rs:510-545 | The method leaves the tables, the held job and the result of the specified cleanup; a child that could not be killed changes nothing |
| `Runner.RootlessValidator.Validate` | src/gitops/sandbox/runner.rs:355-438 | The method leaves the tables, the held job and the result of the specified validation |
| `Jobs.JobStore.constructor` | src/gitops/sandbox/jobs.rs:143-182 | Reopening keeps the rows left behind; only a new database draws a namespace |
| `Jobs.JobStore.ClaimRequest` | src/gitops/sandbox/jobs.rs:101-117 | A nonce is claimed once; the store refuses at its limit |
| `Jobs.JobStore.BindRuntime` | src/gitops/sandbox/jobs.rs:119-141 | The runtime identity is bound once, and never while a launch is pending |
| `Jobs.JobStore.Pending` | src/gitops/sandbox/jobs.rs:184-201 | The durable row is what is pending |
| `Jobs.JobStore.Begin` | src/gitops/sandbox/jobs.rs:203-250 | A launch intent takes the next sequence and the single row, or changes nothing |
| `Jobs.JobStore.Clear` | src/gitops/sandbox/jobs.rs:252-264 | Only the row of the same launch is cleared |
| `Jobs.JobStore.RememberContainer` | src/gitops/sandbox/jobs.rs:266-273 | The container ID is recorded once for the same launch |
| `Jobs.ClaimsExactly` | src/gitops/sandbox/jobs.rs:101-117 | A nonce is claimed if and only if it is new and fewer than 4096 are; a second claim of it is refused |
| `Jobs.BindsExactly` | src/gitops/sandbox/jobs.rs:119-141 | An identity is accepted if and only if it is the bound one, or none is bound and nothing is pending |
| `Jobs.BeginsExactly` | src/gitops/sandbox/jobs.rs:203-250 | An intent is recorded under the next sequence if and only if none is pending, a snapshot is leased and a positive 63-bit sequence is left |
| `Jobs.RowUpdatesExactly` | src/gitops/sandbox/jobs.rs:252-273 | Only the launch the row names is cleared or given a container, and a known container is never exchanged |
| `ManualValidation.ReservationsConserved` | src/reasoning/storage/manual_validation.rs:70-172 | Over every history, per artifact, Reserved facts minus RecoveryAuthorized facts equal 1 while an attempt row exists and 0 otherwise; in total they equal the number of rows |
| `ManualValidation.EachRequestOnce` | src/reasoning/storage/manual_validation.rs:198-258 | Each (artifact, request) is reserved, answered, failed and recovered at most once, and only after it was reserved |
| `ManualValidation.LateResponseRefused` | src/reasoning/storage/manual_validation.rs:229-258 | A receipt, failure or replay of a recovered request changes nothing, whatever was reserved since |
| `ManualValidation.RecoveredForever` | src/reasoning/storage/manual_validation.rs:126-172 | A recovered request stays recovered |
| `ManualValidation.RecoversExactly` | src/reasoning/storage/manual_validation.rs:126-172 | A recovery takes effect if and only if its reason is accepted, the expected request is current and was not recovered, its window is over, and its fact can be recorded |
| `ManualValidation.RecoverEffect` | src/reasoning/storage/manual_validation.rs:126-172 | A recovery archives precisely the current attempt with its receipt, and changes no other request's facts or recoveries |
| `ManualValidation.RecoverAnswers` | src/reasoning/storage/manual_validation.rs:126-172 | What a recovery answers: refused for a bad reason or clock, false without an expired current attempt, and otherwise the archived attempt with its one fact, or the error that keeps it from being recorded |
| `ManualValidation.ReasonExactly` | src/reasoning/storage/manual_validation.rs:126-141 | A reason is accepted if and only if it shows something, has at most 512 bytes and no control character |
| `Text.ClassesExactly` | src/reasoning/storage/manual_validation.rs:135-137 | Which characters are white space and which are control characters |
| `Text.Utf8Exactly` | src/reasoning/storage/manual_validation.rs:135-137 | The bytes of a text are those of its characters, one to four each |
| `ManualValidation.FailsExactly` | src/reasoning/storage/manual_validation.rs:70-102 | A failed response is recorded if and only if its time fits, its request is the open attempt, no failure of it is recorded and the fact can be; then exactly that fact, with the time, is added and the request's failures count one |
| `ManualValidation.ReservesExactly` | src/reasoning/storage/manual_validation.rs:198-227 | A request becomes the open attempt if and only if it is small enough, no attempt of its artifact is open, it was never recovered and its fact can be recorded |
| `ManualValidation.CompletesExactly` | src/reasoning/storage/manual_validation.rs:229-258 | A receipt is stored if and only if its time fits, its request is the open attempt and its fact can be recorded |
| `ManualValidation.ScopeExactly` | src/reasoning/storage/manual_validation.rs:274-327 | A scope is unambiguous if and only if all preparations of the artifact carry the same one, whole or not at all; the fact then carries it |
| `ManualValidation.RunKeepsInv` | src/reasoning/storage/manual_validation.rs:274-327 | Every history from an empty store, restarts and unreported commits included, keeps facts, rows and recoveries consistent |
| `ManualValidation.AttemptStore.constructor` | src/reasoning/storage.rs:183-218 | Opening replays the event table into memory |
| `ManualValidation.AttemptStore.Reserve` | src/reasoning/storage/manual_validation.rs:198-227 | Reserves when no attempt is open and the request was never recovered, with its journal fact, or changes nothing |
| `ManualValidation.AttemptStore.Complete` | src/reasoning/storage/manual_validation.rs:229-258 | Stores a receipt for exactly the open request, once |
| `ManualValidation.AttemptStore.RecordFailure` | src/reasoning/storage/manual_validation.rs:70-102 | Records a failed response in table and memory, or answers alike for a repeat, exactly as `ManualValidation.FailsExactly` says, and never closes the attempt |
| `ManualValidation.AttemptStore.Recover` | src/reasoning/storage/manual_validation.rs:126-172 | Authorizes recovery of an expired open attempt and archives it |
| `ManualValidation.AttemptStore.CheckTransition` | src/reasoning/storage/manual_validation.rs:274-327 | A transition needs a contiguous sequence and an unambiguous candidate scope |
| `ManualValidation.AttemptStore.Commit` | src/reasoning/storage/manual_validation.rs:274-327 | A committed fact reaches table and memory together |
| `ManualValidation.AttemptStore.Project` | src/reasoning/journal.rs:356-430 | The replay loop's counters equal the tallies of the journal's facts |
| `ValidationProtocol.LeaseExclusion` | src/gitops/sandbox/runner/remote.rs:63-110 | On one clock, with any number of responder processes on one database and unreported commits, at no instant would worker or responder accept two different requests ever reserved for one artifact |
| `ValidationProtocol.ImportsExactly` | src/application/manual_repair.rs:130-200 | A response is imported if and only if the worker wrote it for the awaited request about this artifact, and the clock is in the request's window, not before the completion, and at most the maximal age behind it |
| `ValidationProtocol.WindowDecides` | src/gitops/sandbox/runner/remote.rs:63-110 | Inside its half-open window a request is sent, admitted, launched and answered; outside it none of these |
| `ValidationProtocol.BuildsExactly` | src/gitops/sandbox/runner/remote.rs:33-61 | A request is drawn under a new nonce for the checked artifact, its window ending a minute behind the timeout |
| `ValidationProtocol.ClaimsExactly` | src/gitops/sandbox/jobs.rs:101-117 | The worker claims an admitted request if and only if its nonce is new and the ledger has room |
| `ValidationProtocol.WindowsOrdered` | src/reasoning/storage/manual_validation.rs:126-227 | The acceptance windows of one artifact's requests are disjoint and ordered |
| `ValidationProtocol.LaunchesBoundedByRecoveries` | src/gitops/sandbox/runner/remote.rs:121-184 | With the nonce ledger the worker launches an artifact at most once per recovery, plus once, and never more often than it was reserved |
| `ValidationProtocol.LaunchesNeverShareAWindow` | src/gitops/sandbox/jobs.rs:101-117 | Two launches for one artifact answer different requests, each while the other's would be refused |
| `ValidationProtocol.CompletedAttemptWasRun` | src/application/manual_repair.rs:130-200 | A stored receipt is the worker's answer to exactly that request, launched exactly once inside its window |
| `ValidationProtocol.UndisturbedRequestCompletes` | src/application/manual_repair.rs:119-200 | Where nothing is in the way, responder and worker left undisturbed bring a new request to a stored receipt with exactly one more launch |
| `ValidationProtocol.StoreStepsExactly` | src/application/manual_repair.rs:119-200 | Where a responder stands when it may reserve, store its receipt or record its failure, what the tables then are and where it stands after; operators recover only while no attempt check is under way |
| `ValidationProtocol.ResponderMovesExactly` | src/application/manual_repair.rs:119-200 | A responder checks while idle and only an artifact without an attempt; what failing transport, cancellation and crashes leave |
| `ValidationProtocol.SharingExactly` | src/application/manual_repair.rs:119-200 | Time passes, a further process comes in reading the table, and processes take turns, each with its own memory |
| `ValidationProtocol.UnreportedExactly` | src/application/manual_repair.rs:119-200 | A step that writes the store may take effect unreported: the tables are as if it was, memory and whoever was told are not |
| `ValidationProtocol.RunKeepsInv` | src/application/manual_repair.rs:119-200 | Every interleaving of responder processes, worker, operator, clock, crashes, unreported commits and lost or replayed frames keeps the protocol invariant; a process whose memory missed a row writes nothing |
| `AutomaticDispatch.OneAutomaticAttemptPerIncident` | src/application/repair_dispatch.rs:121-211 | Over any dispatch runs, cancellations, crashes, recoveries and staged repairs, at most one automatic Reserved fact carries a given incident ID |
| `AutomaticDispatch.DispatchesExactly` | src/application/repair_dispatch.rs:121-211 | Undisturbed, a run reserves, with one fact marked automatic under its incident, if and only if the alert is the enrolled one, firing, for the pilot service, the incident was never attempted, and artifact and request are free |
| `AutomaticDispatch.StartsExactly` | src/application/repair_dispatch.rs:121-139 | A run starts if and only if its signal selects it, the context is its own, and memory holds no attempt of the incident |
| `AutomaticDispatch.ReadyReserves` | src/application/repair_dispatch.rs:121-211 | A prepared run in step reserves exactly a small request of a free artifact, and otherwise rests |
| `AutomaticDispatch.AnswersRecorded` | src/application/manual_repair.rs:130-200 | A dispatched run in step ends with its receipt stored or its failure recorded |
| `AutomaticDispatch.SurroundingsExactly` | src/application/repair_dispatch.rs:121-211 | What imports, cancellation, restart, operators and unreported commits do around a run |
| `AutomaticDispatch.NoRestartAfterAttempt` | src/application/repair_dispatch.rs:203-211 | Once memory knows of an attempt of an incident, by whatever run and with whatever outcome, no later dispatch run of it starts |
| `AutomaticDispatch.NoReservationAfterAttempt` | src/application/repair_dispatch.rs:121-211 | An attempt whose commit was never reported may let a run start once more, but nothing is ever reserved for its incident again |
| `AutomaticDispatch.UnreportedAttemptRestarts` | src/application/repair_dispatch.rs:203-211 | The run that does start once more: a reachable world from the initial one, for every prepared artifact |
| `AutomaticDispatch.AttemptedForever` | src/application/repair_dispatch.rs:203-211 | What counts as attempted, in the table or in memory, stays attempted |
| `AutomaticDispatch.RunKeepsInv` | src/reasoning/storage/gitops.rs:128-216 | Every run, unreported commits included, keeps candidate, attempt and fact scopes consistent |
| `Calendar.NextDayIsOneLater` | src/reasoning/incident.rs:244-261 | `days_from_civil` counts each next valid day as one more |
| `Calendar.EpochIsZero` | src/reasoning/incident.rs:244-261 | 1970-01-01 counts 0 |
| `Calendar.CivilExactly` | src/reasoning/incident.rs:244-261 | A date counts if and only if its month is one of twelve and its day does not go beyond it |
| `Calendar.DaysKeepOrder` | src/reasoning/incident.rs:244-261 | The count is strictly increasing in calendar order, hence injective |
| `Calendar.EveryDateCounted` | src/reasoning/incident.rs:244-261 | Every valid date is what walking that many days from the epoch gives: the closed formula refines counting |
| `Calendar.CivilOnCounts` | src/reasoning/incident.rs:244-261 | The date reached after k days counts k |
| `Calendar.ScanFraction` | src/reasoning/incident.rs:169-233 | The fraction loop consumes exactly the digits and keeps milliseconds |
| `Calendar.ParseRfc3339Millis` | src/reasoning/incident.rs:169-233 | The parser as written computes the specified instant or refuses |
| `Calendar.ParsePrintedInstant` | src/reasoning/incident.rs:169-233 | Printing any millisecond instant (section 5.6 of RFC 3339) with any offset up to 23:59 and a four-digit local year, then parsing, gives the instant back |
| `Calendar.ParsesExactly` | src/reasoning/incident.rs:169-233 | A text is read as an instant if and only if it shows a valid date of a four-digit year, a time of day, an optional fraction and a zone up to 23:59 either way, and the instant is that one to the millisecond |
| `Calendar.PrintedInstantsDistinct` | src/reasoning/incident.rs:169-233 | Different instants never print alike, whatever their zones |
| `Dispatcher.RebuildSimulates` | src/reasoning/dispatcher.rs:67-163 | After any signals, completions, failed writes and restarts, the state rebuilt from the journal agrees with the live one on keys, kinds, episodes and completion, on time and source when firing, and has a time no later when resolved |
| `Dispatcher.OpensExactly` | src/reasoning/dispatcher.rs:189-402 | A received firing signal that is not stale opens an episode of its key if and only if the key is unknown, resolved, or completed from another source; the opening's number, fact and answer are given |
| `Dispatcher.OtherwiseExactly` | src/reasoning/dispatcher.rs:189-402 | A stale, repeated, ongoing or resolving signal opens nothing: the one fact it adds, what becomes of its key and the answer |
| `Dispatcher.FirstResolvedExactly` | src/reasoning/dispatcher.rs:217-253 | A resolution of an unknown key is accepted and recorded |
| `Dispatcher.RefusedExactly` | src/reasoning/dispatcher.rs:189-402 | A signal is refused if and only if its time is unreadable or its fact cannot be written |
| `Dispatcher.RedeliveryOpensNothing` | src/reasoning/dispatcher.rs:216-232 | The same signal again, after the episode it opened completed, is deduplicated by one fact and starts nothing |
| `Dispatcher.CompletesExactly` | src/reasoning/dispatcher.rs:479-511 | A completion is refused if and only if it cannot be written; it marks the firing episode of its key and no other |
| `Dispatcher.RebuildSimulatesUnreported` | src/reasoning/dispatcher.rs:67-163 | With appends that take effect although reported failed: the table rebuilds the state memory would be in had it been told, memory agrees with its own journal, the table is at most one fact ahead, and neither changes before a restart |
| `Dispatcher.ExactUnlessDuplicateResolution` | src/reasoning/dispatcher.rs:245-253 | Exact equality of live and rebuilt state survives a signal if and only if it is not a later duplicate of a resolution |
| `Dispatcher.KeyRebuiltExactly` | src/reasoning/dispatcher.rs:67-163 | After any run a key is rebuilt exactly as it is live if and only if it shows the time and source of its newest recovery fact, or is not resolved |
| `Dispatcher.JournalRebuildsExactly` | src/reasoning/dispatcher.rs:67-163 | After any run the journal rebuilds the live state exactly if and only if that holds of every key |
| `Dispatcher.OpeningRestores` | src/reasoning/dispatcher.rs:289-340 | Whatever duplicates came before, a key's next opening is rebuilt exactly |
| `Dispatcher.LaterResolutionDiverges` | src/reasoning/dispatcher.rs:217-253 | The failing input: two resolutions a second apart, after which live and rebuilt state differ |
| `Dispatcher.RebuildNeedsPlainKey` | src/reasoning/dispatcher.rs:551-568 | A first firing signal survives a restart if and only if its key does not bring in the episode separator |
| `Dispatcher.EpisodeLikeKeyDiverges` | src/reasoning/dispatcher.rs:551-568 | The failing input: the fingerprint episode-2, whose first firing signal a restart files under another key |
| `Dispatcher.EpisodesRiseByOne` | src/reasoning/dispatcher.rs:189-402 | Across restarts each key's openings are numbered consecutively from 1 or 2 |
| `Dispatcher.OpenedIdsDistinct` | src/reasoning/dispatcher.rs:189-402 | No two openings of any keys share an incident ID |
| `Dispatcher.EpisodesFit` | src/reasoning/dispatcher.rs:189-402 | The journal's own bound keeps every episode number, and the next one, inside 64 bits |
| `Dispatcher.LiveTimeMonotone` | src/reasoning/dispatcher.rs:189-402 | No accepted signal moves a key's live time backwards |
| `Dispatcher.UnfinishedWorkSurvivesRestart` | src/reasoning/dispatcher.rs:416-471 | An unfinished firing episode is resumable under the ID and payload it was opened with, and a restart resumes exactly the same ones |
| `Dispatcher.CompletionEndsItsEpisodeExactly` | src/reasoning/dispatcher.rs:479-511 | Completing an ID ends its key's current episode and no other key's; that is the one episode the ID names, and nothing else ends, if and only if its key is not in the middle of another episode |
| `Dispatcher.FirstReportEndsSecondEpisode` | src/reasoning/dispatcher.rs:175-187 | The failing input: one batch of firing, resolved, firing starts two investigations, and completing the first takes the second off the work a restart resumes |
| `Dispatcher.LiteralBatchLosesWork` | src/reasoning/dispatcher.rs:175-187 | Such a batch written out: three signals of the fingerprint api within a second |
| `Dispatcher.RunKeepsInv` | src/reasoning/dispatcher.rs:189-402 | Every run keeps live state, journal and numbering consistent |
| `Dispatcher.IncidentDispatcher.constructor` | src/reasoning/dispatcher.rs:67-163 | The rebuild loop computes the specified replay of the journal |
| `Dispatcher.IncidentDispatcher.Append` | src/reasoning/dispatcher.rs:189-402 | An append that cannot be written leaves the journal alone |
| `Dispatcher.IncidentDispatcher.ProcessOne` | src/reasoning/dispatcher.rs:189-402 | The method changes journal and lifecycle exactly as specified, and neither on an error; what is specified is said by `Dispatcher.OpensExactly` and `Dispatcher.OtherwiseExactly` |
| `Dispatcher.BatchReportsOpenings` | src/reasoning/dispatcher.rs:175-187 | A batch only appends facts, and the work it reports is exactly the incidents it opened, in order, under the IDs and payloads of their openings |
| `Dispatcher.IncidentDispatcher.ProcessNew` | src/reasoning/dispatcher.rs:175-187 | The loop processes in input order; an error ends it and keeps what was done |
| `Dispatcher.IncidentDispatcher.MarkCompleted` | src/reasoning/dispatcher.rs:479-511 | Completion is journalled and marks the current firing episode of the key |
| `Dispatcher.IncidentDispatcher.PendingInvestigations` | src/reasoning/dispatcher.rs:416-471 | The loop yields exactly the resumable signals of unfinished firing keys |
| `IncidentId.IdReads` | src/reasoning/dispatcher.rs:551-568 | For plain keys `correlation_key` and `episode_number` undo the ID format |
| `IncidentId.FirstIdReads` | src/reasoning/dispatcher.rs:551-568 | An unnumbered ID gives back its key if and only if the key is plain |
| `IncidentId.NumberedIdReads` | src/reasoning/dispatcher.rs:551-568 | A numbered ID gives back key and episode for every key |
| `IncidentId.ReadsExactly` | src/reasoning/dispatcher.rs:551-568 | Any identifier is cut at its last separator; what follows is the episode if it is a 64-bit number, which else is the first |
| `Decimal.ParsePrinted` | src/reasoning/dispatcher.rs:563-568 | A printed number parses back exactly when the type can hold it |
| `Decimal.ParsesExactly` | src/reasoning/dispatcher.rs:563-568 | A text parses if and only if it is digits, behind at most one plus sign, of a value the type holds |
| `Decimal.ValueIsPositional` | src/reasoning/dispatcher.rs:563-568 | Each further digit counts what is before it ten times |
| `ComposeImage.Render` | src/gitops/it_tools_image.rs:39-92 | The loop over lines computes the specified rewrite or error |
| `ComposeImage.RenderIsEdit` | src/gitops/it_tools_image.rs:39-92 | A successful rewrite is source[..s] + image + source[e..] inside one line, and reads as the intended document |
| `ComposeImage.EditChangesOneLine` | src/gitops/it_tools_image.rs:39-92 | As lines, the result is the source with exactly one line replaced |
| `ComposeImage.RenderChangesSomething` | src/gitops/it_tools_image.rs:39-92 | With a lawful YAML reader the result differs from the source |
| `ComposeImage.RenderNeedsOnePlace` | src/gitops/it_tools_image.rs:39-92 | Rendering succeeds if and only if exactly one candidate place reads as the intended change |
| `ComposeImage.RendersExactly` | src/gitops/it_tools_image.rs:39-92 | The rewrite succeeds if and only if the source is acceptable and one candidate of one of its lines, and no other, reads as the intended change; that candidate alone is replaced |
| `ComposeImage.ScalarSpanExactly` | src/gitops/it_tools_image.rs:39-92 | A candidate is what follows spaces, the key and spaces in a line: up to its comment, or to the last character that is not white space, without a line break |
| `ComposeImage.SpansExactly` | src/gitops/it_tools_image.rs:39-92 | A span is a candidate of the text if and only if it is the candidate of one of its lines |
| `ComposeImage.ExpectationExactly` | src/gitops/it_tools_image.rs:39-92 | Which sources are acceptable, and which error refuses the others |
| `ComposeImage.ImageLineExactly` | src/gitops/it_tools_image.rs:39-92 | A line counts towards the limit of 32 if and only if the key stands behind white space only |
| `ComposeImage.ImageLinesCounted` | src/gitops/it_tools_image.rs:39-92 | The count is the number of such lines |
| `ComposeImage.ImageExactly` | src/gitops/it_tools_image.rs:27-37 | An image is valid if and only if it is the pilot's name and a digest of 64 lower-case hexadecimal digits |
| `ComposeImage.ImageIsOneLine` | src/gitops/it_tools_image.rs:27-37 | A valid image holds no newline and no comment sign |
| `Patch.Build` | src/gitops/artifact.rs:116-170 | The guards, the iterator of changed lines and the pushing loop produce the specified patch |
| `Patch.StepChanges` | src/gitops/artifact.rs:137-144 | Stepping the zipped lines finds the first difference |
| `Patch.WritePatch` | src/gitops/artifact.rs:161-170 | The header and the two pushed sides are the patch text |
| `Patch.PushSide` | src/gitops/artifact.rs:164-170 | A side is its sign, its line, and the marker of a missing final newline |
| `Patch.PatchReads` | src/gitops/artifact.rs:161-170 | Applying the zero-context hunk replaces exactly its line, terminated or not |
| `Patch.PatchRoundTrip` | src/gitops/artifact.rs:116-170 | Whenever a patch is built, applying it to the source gives exactly the rendered text |
| `Patch.OnlyOneChange` | src/gitops/artifact.rs:137-146 | The rendered text differs in one line, so a second change is never met |
| `Patch.BuildsExactly` | src/gitops/artifact.rs:116-170 | A patch is built if and only if the identifiers and the digest are well-formed, the source renders to at most 256 KiB on the expected base, and the changed line is a bare pilot image scalar |
| `Patch.PilotLineExactly` | src/gitops/artifact.rs:116-170 | Which lines may be replaced: no comment, the key, and an image of the pilot by tag or digest in at most 256 plain bytes |
| `Lines.JoinSplit` | src/gitops/artifact.rs:137-142 | The lines of a text joined give the text |
| `Lines.SplitBetween` | src/gitops/artifact.rs:137-142 | Whole lines before and after a line split off unchanged |
| `BatchParser.ReadListing` | src/gitops/snapshot.rs:72-90 | The listing loop computes the specified entries and the request for their blobs |
| `BatchParser.ListingExactly` | src/gitops/snapshot.rs:74-90 | A listing is accepted if and only if its nonempty records are allowed entries printed one by one, at most 4096; the result is those entries in order |
| `BatchParser.RecordExactly` | src/gitops/snapshot.rs:74-87 | One record reads as an entry exactly when it is that entry printed and allowed |
| `BatchParser.RecordText` | src/gitops/snapshot.rs:74-87 | The record of an entry, spelled out |
| `BatchParser.EntryExactly` | src/gitops/snapshot.rs:74-87 | An entry is allowed if and only if its object is 40 or 64 hexadecimal digits and its path is safe |
| `BatchParser.SafePathExactly` | src/gitops/snapshot.rs:204-212 | A path is safe if and only if it has 1 to 512 bytes, no control character, no backslash, and no part that is empty, a dot, two dots or .git |
| `BatchParser.WantedInOrder` | src/gitops/snapshot.rs:72-90 | The request asks for every entry's object, in order |
| `BatchParser.ListingRoundTrip` | src/gitops/snapshot.rs:72-90 | Any list of at most 4096 allowed entries is read back from its listing |
| `BatchParser.SafePathStaysBelow` | src/gitops/snapshot.rs:204-212 | An accepted path leads strictly below the directory it is joined to, never into a .git |
| `BatchParser.SafePathsDistinct` | src/gitops/snapshot.rs:204-212 | Different accepted paths lead to different files |
| `BatchParser.Capture` | src/gitops/snapshot.rs:102-158 | The batch loop computes the specified snapshot or error, every slice in range |
| `BatchParser.BatchRoundTrip` | src/gitops/snapshot.rs:102-158 | The batch of any contents, of arbitrary bytes, is read back exactly and consumed completely; the capture is what those contents intend, errors included |
| `BatchParser.InstallsExactly` | src/gitops/snapshot.rs:126-158 | Writing succeeds if and only if the rewrite does on every pilot entry; then every entry is one file in order, under its name and mode, as it is or rendered, and the last pilot gives the two texts |
| `BatchParser.BatchExactly` | src/gitops/snapshot.rs:102-158 | A capture succeeds if and only if the data is the entries' blocks in order with nothing left over and the contents make a snapshot |
| `BatchParser.CaptureFailsExactly` | src/gitops/snapshot.rs:102-158 | Which error a capture ends with: too much data, the first entry whose block cannot be read or whose contents cannot be written, or no pilot or data left over |
| `BatchParser.BlockReads` | src/gitops/snapshot.rs:104-125 | A block is read whatever its contents and whatever follows |
| `BatchParser.BlockRead` | src/gitops/snapshot.rs:104-125 | Anything read as a block is one, its numeral the length of its contents |
| `JournalStore.RunKeepsMirror` | src/reasoning/storage.rs:183-308 | From an empty store, over appends, checkpoints, failed and unreported commits, crashes and reopenings, rows are numbered 0..n-1 and memory is a prefix of them |
| `JournalStore.RunInStep` | src/reasoning/storage.rs:229-422 | Without unreported commits memory equals the rows after every step |
| `JournalStore.StaleMemoryRefuses` | src/reasoning/storage.rs:229-308 | After an unreported commit of events no event is written until reopening |
| `JournalStore.StepWrites` | src/reasoning/storage.rs:341-383 | A step appends all of its events behind the rows or none |
| `JournalStore.TransactsExactly` | src/reasoning/storage.rs:229-383 | A transaction takes effect if and only if its events find free 64-bit sequences behind memory in step and the commit takes; it then writes all of its rows, markers and notification, a known delivery keeping its body, and memory follows a reported commit only |
| `JournalStore.AppendsExactly` | src/reasoning/storage.rs:229-256 | So for one event, whose sequence is answered |
| `JournalStore.CheckpointsExactly` | src/reasoning/storage.rs:259-308 | So for a checkpoint, which answers false and writes nothing if its marker is there |
| `JournalStore.NotifiesExactly` | src/reasoning/storage.rs:341-383 | So for events with a notification |
| `JournalStore.DeliveriesStay` | src/reasoning/storage.rs:341-383 | Over any run a recorded delivery keeps its body |
| `JournalStore.ReplaysExactly` | src/reasoning/storage.rs:183-218 | Opening succeeds if and only if the rows are numbered from zero without a gap, and reads them in that order |
| `JournalStore.CheckpointAtMostOnce` | src/reasoning/storage.rs:259-308 | Whatever the retries and crashes, a checkpoint ID's events are written at most once, and once exactly if its marker appeared |
| `JournalStore.CheckpointWrites` | src/reasoning/storage.rs:259-308 | An attempt at a checkpoint writes exactly its events if it took, and nothing otherwise |
| `JournalStore.FlushedInOrder` | src/reasoning/investigation.rs:367-388 | Flushed runtime events are written in order and never twice, over every run |
| `JournalStore.FlushWritesRuntime` | src/reasoning/investigation.rs:367-388 | A flush writes the runtime events at exactly the positions it counts as written |
| `JournalStore.FlushSettlesExactly` | src/reasoning/investigation.rs:367-388 | Taken alone, for any caller, a successful flush leaves everything believed flushed durable if and only if it does not retry an unreported flush after the runtime journal has grown |
| `JournalStore.FlushesExactly` | src/reasoning/investigation.rs:367-388 | A flush succeeds if and only if nothing is pending, its checkpoint was written before, or its events fit and are committed; a checkpoint written before writes nothing again |
| `JournalStore.FlushIdsDistinct` | src/reasoning/investigation.rs:367-388 | Two runs never share a flush checkpoint, nor one run two |
| `JournalStore.FlushedIsPrefix` | src/reasoning/investigation.rs:253-388 | The durable runtime events of a run, which draws a new run ID and ends at its first failed flush, are always an in-order, duplicate-free prefix of its runtime journal, at least as long as it believes, whatever other writers, failures, crashes and reopenings do |
| `JournalStore.FlushedRowsArePrefix` | src/reasoning/investigation.rs:253-388 | In rows: those the flushes of such a run wrote hold, in table order and under its scope, the first events of its runtime journal, each once, and at least all it believes flushed |
| `JournalStore.FreshRunSettled` | src/reasoning/investigation.rs:253-263 | A run whose ID was never flushed starts with nothing believed or durable |
| `JournalStore.JournalStore.constructor` | src/reasoning/storage.rs:91-101 | A new database is empty, and so is the journal |
| `JournalStore.JournalStore.Open` | src/reasoning/storage.rs:183-218 | Opening loads the rows in order, or refuses a gap |
| `JournalStore.JournalStore.InsertEvents` | src/reasoning/storage.rs:278-294 | The insert loop, on a copy, fails on a taken or too large sequence |
| `JournalStore.JournalStore.Restore` | src/reasoning/storage.rs:300-306 | The committed events follow in memory with consecutive sequences |
| `JournalStore.JournalStore.AppendScoped` | src/reasoning/storage.rs:229-256 | One event reaches rows and memory, or as the commit ended |
| `JournalStore.JournalStore.AppendCheckpointScoped` | src/reasoning/storage.rs:259-308 | A present marker skips the events; otherwise events and marker commit together |
| `JournalStore.JournalStore.AppendWithOutboxScoped` | src/reasoning/storage.rs:341-383 | Events and notification commit together; a known delivery ID keeps its body |
| `JournalStore.JournalStore.PersistRuntimeEvents` | src/reasoning/investigation.rs:367-388 | The unflushed tail goes out under the checkpoint of its start |
| `CostLedger.RunConserves` | src/reasoning/storage.rs:441-565 | From empty ledgers, after any calls, every ledger holds the sum over its linked reservations of the actual cost if reconciled and else the amount |
| `CostLedger.RunStaysUnderCeilings` | src/reasoning/storage.rs:441-565 | Under fixed ceilings below i64::MAX and reports no larger than their reservations, no scope exceeds its ceiling and no sum overflows |
| `CostLedger.AcceptedFitsExactly` | src/reasoning/storage.rs:464-480 | An accepted reservation is within its ceiling if and only if the ceiling is below i64::MAX or the sum fits |
| `CostLedger.ReservesExactly` | src/reasoning/storage.rs:441-514 | A new reservation is accepted if and only if the amount is a 64-bit integer, every scope takes it and no scope is named twice; each scope is then charged once, and the first that would be exceeded decides the error |
| `CostLedger.ReconcilesExactly` | src/reasoning/storage.rs:516-565 | A reconciliation takes effect if and only if it reports a 64-bit cost for a known reservation that has none; every linked ledger then exchanges the amount for the cost, and nothing else changes |
| `CostLedger.CeilingsHoldExactly` | src/reasoning/storage.rs:441-514 | A configured ceiling holds for every reservation accepted against it in every history if and only if it is below i64::MAX |
| `CostLedger.MaximumCeilingOverflows` | src/reasoning/storage.rs:464-503 | With ceiling i64::MAX two accepted reservations overflow the ledger |
| `CostLedger.RetriesChangeNothing` | src/reasoning/storage.rs:441-565 | After acceptance and any later calls, the same reservation or a second reconciliation changes nothing |
| `CostLedger.AcceptedIsRecorded` | src/reasoning/storage.rs:441-565 | An accepted call is recorded; a refused one leaves every table alone |
| `CostLedger.DuplicateScopeRefused` | src/reasoning/storage.rs:491-509 | A reservation naming a scope twice is refused and rolled back |
| `CostLedger.LedgerStore.constructor` | src/reasoning/storage.rs:161-177 | New ledgers are empty |
| `CostLedger.LedgerStore.ReserveCost` | src/reasoning/storage.rs:441-514 | The method's effect on the three tables is the specified transaction |
| `CostLedger.LedgerStore.CheckScopes` | src/reasoning/storage.rs:464-480 | The first loop reports the first scope that refuses |
| `CostLedger.LedgerStore.ChargeScopes` | src/reasoning/storage.rs:491-509 | The second loop charges and links each scope, or fails on a repeated one |
| `CostLedger.LedgerStore.ReconcileCost` | src/reasoning/storage.rs:516-565 | The method's effect is the specified transaction |
| `CostLedger.LedgerStore.MoveScopes` | src/reasoning/storage.rs:550-557 | The updates give one result in whatever order the scopes come |
| `Qualification.ImportConfluent` | src/reasoning/storage/gitops.rs:222-316 | After importing receipts of any deployments at one time into a journal that does not know this one, it is eligible if and only if exactly one receipt concerned it and that receipt is eligible, whatever order or repetition |
| `Qualification.InvalidForever` | src/reasoning/storage/gitops.rs:250-253 | At any times, once ineligible a deployment stays so and is never returned as qualified |
| `Qualification.RunKeepsInv` | src/reasoning/storage/gitops.rs:222-316 | From an empty store, over every run with restarts and unreported commits, a deployment has at most two facts and its row, audit and facts stay consistent |
| `Qualification.NewestAgrees` | src/reasoning/storage/gitops.rs:222-316 | A row is eligible if and only if the newest fact is (its digest, true) |
| `Qualification.QualifiedExactly` | src/reasoning/storage/gitops.rs:320-359 | With memory in step a read fails only when the clock is behind the fact, and yields the recorded receipt exactly while it is eligible |
| `Qualification.CorruptRowRefused` | src/reasoning/storage/gitops.rs:320-359 | Whatever the database holds, an eligible row whose newest fact does not accept its digest, or whose receipt is malformed, another deployment's or of another digest, is an error and never a qualification |
| `Qualification.RecordEffect` | src/reasoning/storage/gitops.rs:222-316 | What one import does to each deployment's row |
| `Qualification.RecordsExactly` | src/reasoning/storage/gitops.rs:222-316 | With memory in step, the answer, the one fact with its reason and time, and the receipt an import leaves, or why it leaves nothing |
| `Qualification.StaleMemoryRecordsNothing` | src/reasoning/storage/gitops.rs:222-316 | Memory that misses a fact records nothing until the next start |
| `Qualification.EligibleExactly` | src/reasoning/storage/gitops.rs:15-22 | A receipt is eligible if and only if the deployment succeeded as declared and observed, under a policy declared before, and its health covers the window at an accepting time |
| `Qualification.ShapeExactly` | src/gitops/receipt.rs:126-146 | A receipt is well-formed if and only if it names the pilot, plain identifiers, Git objects and pinned images, within the bounds |
| `Text.AlphanumericExactly` | src/gitops/receipt.rs:133-136 | A character of an identifier, besides dash and underscore, is one of the 62 ASCII letters and digits |
| `Qualification.QualificationStore.constructor` | src/reasoning/storage.rs:183-218 | Opening replays the rows |
| `Qualification.QualificationStore.FindNewest` | src/reasoning/storage/gitops.rs:254-269 | The backwards search finds the deployment's newest fact |
| `Qualification.QualificationStore.RecordDeployment` | src/reasoning/storage/gitops.rs:222-316 | The method's result and effect are the specified import |
| `Qualification.QualificationStore.QualifiedDeployment` | src/reasoning/storage/gitops.rs:320-359 | The method returns the specified reading |
| `Health.AssessHealth` | src/gitops/qualified_deployment.rs:77-119 | The loop computes the specified verdict; no 64-bit subtraction underflows |
| `Health.AcceptedExactly` | src/gitops/qualified_deployment.rs:77-119 | Acceptance if and only if the samples are healthy, ordered and put one in (t, t + max_gap] for every instant t of the window, and now lies in [max(end, last sample), end + max_age] |
| `Health.RefusedExactly` | src/gitops/qualified_deployment.rs:77-119 | Which error refuses: the limits first, then the clock, then the evidence |
| `Budget.BudgetState.constructor` | src/reasoning/budget.rs:79-87 | A fresh budget has spent nothing |
| `Budget.BudgetState.Reserve` | src/reasoning/budget.rs:90-121 | A reservation is checked against every ceiling before any counter changes |
| `Budget.AddsExactly` | src/reasoning/budget.rs:90-121 | An accepted reservation adds to a counter without wrapping if and only if its ceiling is below the type maximum or the sum fits |
| `Budget.NeverWrapsExactly` | src/reasoning/budget.rs:90-121 | Each counter adds up in every history of accepted reservations if and only if its ceiling is set below what the counter can hold |
| `Budget.UnboundedCostWraps` | src/reasoning/budget.rs:90-121 | The failing input: without a cost ceiling two accepted reservations leave a cost of zero |
| `Budget.AcceptedExactly` | src/reasoning/budget.rs:90-121 | Under bounded ceilings acceptance means all four sums stay within them |
| `Budget.RefusesExactly` | src/reasoning/budget.rs:90-121 | A refusal names the first counter whose ceiling, if below the type's maximum, the sum would pass, and changes nothing |
| `Budget.TotalsAreSums` | src/reasoning/budget.rs:90-121 | Over any calls the counters are the plain sums of the accepted reservations, within every ceiling |
| `Coordinator.AttemptsInOrder` | src/reasoning/coordinator.rs:165-275 | After any calls, misplaced ones included, the recorded attempts are a duplicate-free subsequence of the admitted providers in order, with at most one success, which is last and is the status |
| `Coordinator.StatusSticky` | src/reasoning/coordinator.rs:165-275 | A terminal status is final |
| `Coordinator.RunKeepsInv` | src/reasoning/coordinator.rs:165-275 | Every call keeps attempted providers a prefix of the candidates with the active one last |
| `Coordinator.RunSpendsWhatItWasGranted` | src/reasoning/coordinator.rs:165-196 | The counters of a run are the sums of what it was granted, within every ceiling |
| `Coordinator.NextIsCandidate` | src/reasoning/coordinator.rs:198-207 | The search finds the first candidate beyond those attempted |
| `Coordinator.AdmitsExactly` | src/reasoning/coordinator.rs:165-185 | In every reachable state, what an admission answers and activates, and when it exhausts the run |
| `Coordinator.BaselineExactly` | src/reasoning/coordinator.rs:210-217 | The baseline is admitted, at no cost, exactly while it is the next candidate of an idle run |
| `Coordinator.ReportsExactly` | src/reasoning/coordinator.rs:229-275 | Only the active provider's report is recorded; another's failure takes the active one away, its success does nothing |
| `Coordinator.CandidatesInOrder` | src/reasoning/coordinator.rs:137-162 | The candidates are the admitted providers of the order, each in its place |
| `Coordinator.PlanExactly` | src/reasoning/coordinator.rs:137-162 | A plan is accepted if and only if its order repeats nobody and somebody in it is admitted |
| `Coordinator.ReasoningRun.constructor` | src/reasoning/coordinator.rs:153-161 | A new run has attempted nothing |
| `Coordinator.ReasoningRun.New` | src/reasoning/coordinator.rs:137-162 | A run exists exactly for an order without duplicates that admits someone |
| `Coordinator.ReasoningRun.FindNext` | src/reasoning/coordinator.rs:175-180 | The search loop finds the specified provider |
| `Coordinator.ReasoningRun.Admit` | src/reasoning/coordinator.rs:165-185 | Admission reserves, marks and activates the next provider, or exhausts the run |
| `Coordinator.ReasoningRun.ReserveEvidenceQuery` | src/reasoning/coordinator.rs:188-195 | One query is reserved or refused |
| `Coordinator.ReasoningRun.FindNextProvider` | src/reasoning/coordinator.rs:198-207 | None once a run ended or while one is active |
| `Coordinator.ReasoningRun.AdmitDeterministic` | src/reasoning/coordinator.rs:210-217 | The baseline is admitted without a reservation |
| `Coordinator.ReasoningRun.FailWith` | src/reasoning/coordinator.rs:229-247 | A failure is recorded for the active provider; a misplaced one takes the active provider away |
| `Coordinator.ReasoningRun.SucceedWith` | src/reasoning/coordinator.rs:255-275 | A success ends the run |
| `Runtime.IncidentRuntime.constructor` | src/reasoning/runtime.rs:49-67 | A new runtime is consistent and empty |
| `Runtime.IncidentRuntime.AdmitProvider` | src/reasoning/runtime.rs:156-169 | The phase is journalled, then the next provider admitted |
| `Runtime.IncidentRuntime.FailProvider` | src/reasoning/runtime.rs:182-201 | A failed attempt and the phase end are journalled |
| `Runtime.IncidentRuntime.SucceedProvider` | src/reasoning/runtime.rs:204-225 | A successful attempt, the phase end and the terminal fact are journalled |
| `Runtime.IncidentRuntime.SucceedProviderWithReport` | src/reasoning/runtime.rs:228-246 | A report is kept if and only if its summary shows something and all of at least one citation are records of the board; one unknown citation is refused as evidence and leaves the run as it was |
| `Runtime.IncidentRuntime.CommitEvidence` | src/reasoning/runtime.rs:93-116 | What the board accepts is journalled under the board's identifier; a refusal changes neither |
| `Runtime.IncidentRuntime.RecordToolContext` | src/reasoning/runtime.rs:125-138 | A tool fact is journalled without changing the attempts |
| `Runtime.IncidentRuntime.RunRecorded` | src/reasoning/runtime.rs:252-308 | The loop terminates, and its result, attempts and report are those of the recursive reference; every attempted provider consumed one recording |
| `Runtime.IncidentRuntime.Judge` | src/reasoning/runtime.rs:275-305 | How one scripted attempt ends |
| `Runtime.IncidentRuntime.TakeNext` | src/reasoning/runtime.rs:270-273 | The first recording of the provider gives up its next attempt, the others stay |
| `Runtime.FallbackTakesFirstAcceptable` | src/reasoning/runtime.rs:252-308 | A fallback run attempts a prefix of the candidates in order, succeeds exactly with the first acceptable one, whose valid report it keeps, and is exhausted exactly when all were tried in vain |
| `Runtime.TakenElsewhere` | src/reasoning/runtime.rs:270-273 | Consuming a provider's recording leaves the next attempt of every other alone |
| `Runtime.AdmitProviderAt` | src/reasoning/runtime.rs:156-169 | Admission of an idle run takes the first candidate ahead, with or without budget, and keeps journal and attempts consistent |
| `Runtime.BusyAdmitsNobody` | src/reasoning/runtime.rs:156-169 | A busy or ended run admits nobody, but journals the phase |
| `Runtime.ReportsJournalled` | src/reasoning/runtime.rs:182-225 | A report reaches the journal, as attempt with facts and phase end, and for a success the terminal fact, if and only if the active provider makes it |
| `Runtime.ValidExactly` | src/reasoning/contracts.rs:114-134 | A report is valid if and only if its summary shows something, it cites something, and every citation is a given identifier |
| `Runtime.CitationIsRecord` | src/reasoning/contracts.rs:114-134 | Against a board every citation of a supported report is some record's identifier |
| `Runtime.UnknownCitationRefused` | src/reasoning/contracts.rs:114-134 | One citation that is no record's identifier is enough to refuse a report |
| `Runtime.AcceptableExactly` | src/reasoning/runtime.rs:275-305 | A scripted attempt is accepted if and only if it parses to a supported report |
| `Runtime.TakenExactly` | src/reasoning/runtime.rs:270-273 | The provider's first recording gives up its next attempt, if it has one; the others stay |
| `Runtime.UpcomingExactly` | src/reasoning/runtime.rs:270-273 | The next attempt is the first one of the provider's first recording |
| `ToolLoop.ToolLoop.constructor` | src/reasoning/tools.rs:165-172 | A fresh loop has used no turn |
| `ToolLoop.ToolLoop.Admit` | src/reasoning/tools.rs:175-190 | Admission uses a turn and the identifier, or changes nothing |
| `ToolLoop.ToolLoop.RecordResult` | src/reasoning/tools.rs:198-200 | Results are kept in order |
| `ToolLoop.ToolLoop.SumResultBytes` | src/reasoning/tools.rs:208-210 | The sum of the results' detail bytes |
| `ToolLoop.AdmitUsesATurn` | src/reasoning/tools.rs:175-190 | Each identifier is admitted once per loop and turns never exceed the policy |
| `ToolLoop.AdmitsExactly` | src/reasoning/tools.rs:175-190 | A call is admitted if and only if identifier and query show something, a turn is left and the identifier is new; the refusals come in that order |
| `Investigation.CallProgress` | src/reasoning/investigation.rs:81-210 | Every tool call uses an admitted turn or adds a refusal text, so (turns left) + (64 KiB + 1 - bytes) strictly decreases; a backend execution costs a turn, a reserved query and a fresh durable ID |
| `Investigation.RefusedExactly` | src/reasoning/investigation.rs:81-126 | Which calls are refused, with which class and text, and what they have used |
| `Investigation.PerformedExactly` | src/reasoning/investigation.rs:127-210 | What every other call makes durable, executes and brings to the board, by checkpoint, deadline and evidence |
| `Investigation.TurnExactly` | src/reasoning/investigation.rs:414-437 | What a provider answers: nothing out of time, an uncited report if it is the deterministic one, and else the environment's answer |
| `Investigation.ResponsesExactly` | src/reasoning/investigation.rs:486-530 | One to eight calls are executed; what is neither that nor an acceptable report has its own failure or is malformed |
| `Investigation.StraightTakesFirst` | src/reasoning/investigation.rs:390-640 | Without tool calls, the first candidate with an acceptable response wins, once the budget admits it and those before it failed in time |
| `Investigation.LiveTakesFirst` | src/reasoning/investigation.rs:390-640 | So it does in the whole run's recursive function |
| `Investigation.StraightIsLive` | src/reasoning/investigation.rs:390-640 | A run without tool calls is what that function says of it |
| `Investigation.CallsEndExactly` | src/reasoning/investigation.rs:534-599 | Why a response's calls end: a flush failed, a checkpoint failed or a record was refused, and otherwise the conversation is cut off exactly if it retains more than 64 KiB |
| `Investigation.EndsOnce` | src/reasoning/investigation.rs:414-637 | A provider's run has one ending: no earlier response ends it |
| `Investigation.NoToolsEndsAtOnce` | src/reasoning/investigation.rs:414-637 | A first response that asks for no tools ends the run at once: accepted, failed, or lost with its flush, with nothing executed |
| `Investigation.ProviderRunRebased` | src/reasoning/investigation.rs:414-637 | What a provider does depends on what was spent, and on nothing else of the coordinator |
| `Investigation.LiveInvestigation.constructor` | src/reasoning/investigation.rs:237-263 | Nothing requested or executed yet |
| `Investigation.LiveInvestigation.ExecuteModelTool` | src/reasoning/investigation.rs:81-210 | The method's result and effects are the specified tool call, branch by branch |
| `Investigation.LiveInvestigation.Perform` | src/reasoning/investigation.rs:127-210 | From the durable checkpoint on: the deadline, the execution, and the copy of its record to the runtime's board, whose refusal ends the call with an error |
| `Investigation.LiveInvestigation.FailRun` | src/reasoning/investigation.rs:472-484 | A failed provider is recorded once and the run goes on |
| `Investigation.LiveInvestigation.RunCalls` | src/reasoning/investigation.rs:534-599 | The calls of a response are executed in order until done, or until one fails, a flush does, or more than 64 KiB are retained; the end, its tick and what is left are those of the recursive function, and done calls decrease the measure |
| `Investigation.LiveInvestigation.RunProvider` | src/reasoning/investigation.rs:414-637 | For every environment the turns end, with the result, tick and state of the reference: the calls of each response done, until one ends it. It succeeds exactly if the last response is a supported report within 32 KiB of prompt and its flush persists, never for the deterministic provider; any other that asks for no tools is one failed attempt of its class, and the attempt tells the time, tokens and calls of all responses |
| `Investigation.LiveInvestigation.RunLive` | src/reasoning/investigation.rs:390-640 | The run ends for every environment with the result of a recursive function over the candidates: each is admitted within the budget, runs to its end, and its success or error is the result. A success has a supported report, cited from the board, within 32 KiB; an exhausted run failed every candidate; executions stay within the turns of the providers tried |
| `Investigation.LiveInvestigation.Accept` | src/reasoning/investigation.rs:457-471 | A validated report ends the run with that provider |
| `Investigation.LiveInvestigation.Conclude` | src/reasoning/investigation.rs:439-532 | The response that ends a provider's run is accepted exactly if it is a report of at most 32 KiB of prompt whose citations are all on the board; all else is recorded as its failure |
| `Redactor.RedactText` | src/reasoning/evidence.rs:213-278 | The scanning loop advances and writes the specified scan |
| `Redactor.CopyHead` | src/reasoning/evidence.rs:218-232 | Key, blanks, separator and blanks are copied |
| `Redactor.RedactAssignment` | src/reasoning/evidence.rs:218-258 | An assignment's head is copied and its value replaced |
| `Redactor.RedactBearer` | src/reasoning/evidence.rs:259-273 | A bearer token is replaced |
| `Redactor.ValuesDoNotInterfere` | src/reasoning/evidence.rs:213-328 | If the scan reaches a sensitive key with an unquoted value, the whole output is the same for any other such value |
| `Redactor.QuotedValuesDoNotInterfere` | src/reasoning/evidence.rs:213-328 | The same for what stands between quotes |
| `Redactor.TokensDoNotInterfere` | src/reasoning/evidence.rs:259-273 | The same for a bearer token the scan reaches |
| `Secrets.GoesOn` | src/reasoning/evidence.rs:213-278 | A text that ends behind a separator or the word bearer goes on: its own redaction comes first, and what is written behind it is decided by where its scan stands, for every continuation that does not open a quotation at the beginning of a value |
| `Secrets.ValuesHiddenExactly` | src/reasoning/evidence.rs:213-328 | Behind any head of a key no unquoted value shows if and only if, at the end of the text in front of it, the scan is dropping a class of characters that covers the value's |
| `Secrets.QuotedHiddenExactly` | src/reasoning/evidence.rs:233-244 | No quoted value shows if and only if the scan stands at the beginning of a value there |
| `Secrets.TokensHiddenExactly` | src/reasoning/evidence.rs:259-273 | No bearer token shows if and only if the scan is dropping every character that is no blank there |
| `Secrets.OneBlankDecides` | src/reasoning/evidence.rs:213-278 | Behind token=x;password= the password is dropped with the first value; with one blank more the scan drops nothing and the password shows |
| `Redactor.SwallowedKeyShowsSecret` | src/reasoning/evidence.rs:213-278 | The failing input: in token=x;password= ab the first value takes in the second key, and the secret behind the blank is written out |
| `Evidence.CommitKeepsBoard` | src/reasoning/evidence.rs:139-175 | A commit appends one bounded record under an identifier no record had; a refused commit appends none |
| `Evidence.CommitsExactly` | src/reasoning/evidence.rs:139-175 | A commit is accepted if and only if the payload has 1 byte to 64 KiB before and after redaction, fewer than 64 records are there and the redacted query has at most 4 KiB; the order of the refusals |
| `Evidence.KeptExactly` | src/reasoning/evidence.rs:139-175 | Nothing is kept of binary data, and of text what the scan writes |
| `Evidence.IdsDistinct` | src/reasoning/evidence.rs:166 | The padded identifiers of different numbers differ, beyond four digits too |
| `Evidence.IdExactly` | src/reasoning/evidence.rs:166 | An identifier is its prefix and the number in at least four digits |
| `Evidence.QuerySecretsHiddenExactly` | src/reasoning/evidence.rs:139-175 | If the scan covers a value where it begins in the query, every commit ends the same for any two values, in record, identifier and acceptance; if not, there are two values whose kept records differ on any board |
| `Evidence.EvidenceBoard.constructor` | src/reasoning/evidence.rs:111-114 | A new board is empty |
| `Evidence.EvidenceBoard.Commit` | src/reasoning/evidence.rs:139-175 | The method checks in the source's order and appends the redacted record, or refuses and changes nothing |
| `Redactor.LeadingPasswordHidden` | src/reasoning/evidence.rs:213-328 | A text that begins with a password assignment shows nothing of the value |
| `Redactor.AssignmentExactly` | src/reasoning/evidence.rs:292-328 | An assignment is recognized if and only if a word boundary comes before it and one of the nine keys leads it, in any case, with a separator behind it over blanks only |
| `Redactor.AssignmentStepExactly` | src/reasoning/evidence.rs:218-258 | What is written for it: everything before the value, then the mark; a quoted value is read to its quote, one of authorization to the line's end, any other to a blank, comma or closing bracket |
| `Redactor.BearerExactly` | src/reasoning/evidence.rs:330-347 | A bearer token is recognized if and only if a word boundary comes before the word, in any case, and a blank behind it |
| `Redactor.BearerStepExactly` | src/reasoning/evidence.rs:259-273 | What is written for it: everything before the token, then the mark, if there is a token |
| `Redactor.OtherwiseKept` | src/reasoning/evidence.rs:213-278 | Where nothing is recognized the character is kept, and the next may begin a word exactly if it is no letter or digit |
| `Redactor.SecretReplaced` | src/reasoning/evidence.rs:213-278 | The output around a reached secret is what was written before, the head, the mark and the scan of the rest |
| `Redactor.StepLocal` | src/reasoning/evidence.rs:292-347 | A step that ends before a separator, or before the first blank behind an r, is decided by the text up to it |
| `Redactor.ScansAgree` | src/reasoning/evidence.rs:213-347 | Up to such a barrier not yet met, two texts that agree so far are scanned alike |

## Left out

- HTTP intake, notifications, OAuth, the model providers, Grafana, Git process spawning and telemetry: their results are arbitrary inputs here.
- File ownership, modes and inodes, Unix peer credentials, SSH options and Podman arguments: a step of theirs succeeds or fails.
- Serialization is an exact inverse pair, SHA-256 an injective function, and YAML reading any function, lawful where a lemma says so.
- Texts are sequences of Unicode scalars; positions in the rewrite and the patch count scalars where the source counts bytes. `BatchParser` works on bytes and takes UTF-8 as a lawful pair of functions.
- The final journal commit of a handoff (src/reasoning/storage/gitops/handoff.rs) and the checks that bind an artifact to it.
- Runner.RootlessValidator.Validate: the worker's probe, image and host checks are one preflight answer, and the workload's bounded output (`collect`, `finish`) is one result; the validator that has no durable job store is not modelled.
- SandboxProtocol: two processes of one owner are excluded by the operating system's file lock, which is assumed.
- ManualValidation.AttemptStore.Reserve: an SQL failure inside a transaction leaves everything unchanged and is not a separate outcome, and a commit that takes effect but is not reported is a step of the runs, not an outcome of the method; the same holds for the other methods of that class.
- ManualValidation.AttemptStore.Project: only the manual validation counters of the efficiency projection are computed.
- ValidationProtocol: one clock is read by responder, worker and operator; clock skew between hosts is not modelled.
- Dispatcher.IncidentDispatcher.PendingInvestigations: the order of the signals, which the source takes from a hash map, is unspecified.
- Dispatcher.IncidentDispatcher.MarkCompleted: its variants with a notification or a report differ only in further rows of the same transaction. `process`, which returns every outcome of a batch, is omitted.
- Signal normalization and label hashing (src/reasoning/incident.rs:129-166, 263-279): easy members.
- JournalStore.JournalStore.AppendWithOutboxScoped: the variant that also stores a report, delivery marking and the list of undelivered messages are omitted.
- CostLedger.RunConserves: a ledger whose sum left 64 bits continues as a floating-point value in SQLite; here it stays marked as overflowed, and each later check of it is an SQL error.
- Qualification.QualificationStore.QualifiedDeployment: the size limit on the stored receipt text is omitted.
- Investigation.LiveInvestigation.RunLive: the two context queries before the loop, the prompt's text and the measured durations are inputs; the wall clock appears only as answers of the environment.
- Investigation.LiveInvestigation.ExecuteModelTool: the digest and counters of the journalled request are omitted, and the text kept from evidence is the backend's.
- Evidence.EvidenceBoard.Commit: the source and the metadata that travel with a record, and the content digest journalled with it, are omitted; the redaction of a parsed JSON payload is an input.
- Redactor.RedactText: JSON payloads, whose values are replaced by key after parsing, and the second, word-based redactor of prompts are omitted.
- Configuration validation, promotion gates, the gateway parser, page rendering, metrics text, role graph and page cache: short predicates or easy members.
- Task scheduling, deadlines and thread shutdown: cancellation and crashes may happen between any two steps.
