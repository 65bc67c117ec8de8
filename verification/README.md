# WatchMe, verified

WatchMe watches coding agents in terminals and, when one stalls, may type into the live
terminal to get it going again. This project models the parts of it that must not go
wrong and proves what they promise.

**The recovery protocol.** A transaction reads evidence, claims a durable record,
crosses a commit boundary, calls the executor once and polls for proof. `Protocol` is
that protocol as a step system: any number of transactions and stale-lease scans share
one ledger, any store write may be lost (and a lost write may still be on disk), and the
daemon may crash between any two steps and start again from disk. `AtMostOnce`,
`NoBlindRetry`, `LedgerShape`, `Success`, `Story` and `Filing` prove what every run
keeps; `ProbeNeeded` shows exactly how good the process probe must be for that. What the
tests of the code mean is stated apart from them, over the fields they read:
`Permissions` for the policy, `ActionForms` for actions, `Readings` for evidence,
`Turns` for each stage of a transaction. `ActionStore`, `Executor` and `Transaction` are
the same code as the daemon runs it, call by call, and `Transaction.Run` is proved to
perform a run of the step system.

**What feeds the protocol.** `StateMachine`, `MachineRuns`, `MachineHistory`, `Budgets`
and `BudgetReached` are the recovery machine and its budgets; `Watchers`, `Registry`,
`Edits`, `Restarts`, `Dispatch` and `Debounce` the watcher registry, what its operations
and a restart do, its dispatch tokens and the observation loop; `Supervisor` and
`SupervisorProgress` the shutdown of recovery jobs; `Lifecycle`, `LifecycleDecisions`
and `LifecycleRuns` the process monitor.

**Stream machines.** `Codex` (rollout log), `Sanitizer` (terminal bytes), `Capture`
(bounded pane capture), `Jsonl`, `JsonlBatches` and `JsonlRuns` (growing files of JSON
lines) and `StrictJson` and `StrictParser` (the planner's JSON) each carry state over
unbounded input; each is proved against a definition without that state. For terminal
bytes and for JSON that is a grammar: `TerminalStreams` states and proves the first;
`JsonGrammar`, `JsonNumbers` and `JsonEscapes` state the second, `JsonAccepts` and
`JsonDerives` prove the parser complete and sound for it, and `JsonRoundTrip` follows.
`LineSpans` says what lines are. `Lines`, `Utf8`, `JsonText` and `JsonStrings` hold what
they share. `Sample` and `SampleRun` are one concrete action and its run, for the
results that say a run exists.

Modules named after a state (`StateMachine`, `Registry`, ...) give values and functions;
their classes perform the same operations field by field and are proved against those
functions. `dafny verify dfyconfig.toml` checks everything.

Where the code does not do what one might expect of it, the model follows the code:

- A stale-lease scan swaps on key and action, not on phase, so it can record as Failed
  what was typed after it read the record, exactly when its probe may miss the live owner
  (`ProbeNeeded.ProbeConditionIsExact`).
- A cooldown that is not a positive whole number of seconds does not space attempts
  (`MachineRuns.CooldownSpacesAttempts`).
- A failure report is charged to the wait budget before it can be refused
  (`MachineRuns.RefusalChangesOnlyTheWait`).
- A budget of n attempts acts at most n - 1 times (`Budgets.LastAttemptNeverActs`), and
  that often (`BudgetReached.BoundIsReached`).
- The budgets handed to a transaction never offer a planner, so an escalation to one is
  always denied (`Budgets.NoPlannerIsAsked`).
- A machine that has recovered can be told it is revalidated, and then keeps the evidence it
  was at (`MachineHistory.AcceptsExactly`).
- A clock set back revives a process already given up (`LifecycleRuns.ClockBackReprieves`).
- An oversized JSON line whose newline opens a read of its own hides the record after it,
  and nothing else does (`JsonlRuns.ExactlyWhenNothingIsLost`).

## Model

| member | source | states |
|---|---|---|
| `AtMostOnce.ExecutedAtMostOnce` | src/recovery/transaction.rs:303-451 | in every run of concurrent transactions, lost writes, crashes and restarts the executor is called at most once per idempotency key, hence per target, action and evidence |
| `AtMostOnce.ReachableLedgers` | src/recovery/action_store.rs:64-147 | every reachable ledger, in memory and on disk, is well formed: chained audits, one home per key, the active record is the last open one |
| `AtMostOnce.AuditOnlyGrows` | src/store.rs:90-106 | what a ledger acknowledged stays a prefix of the audit, across crashes, lost writes and restarts |
| `NoBlindRetry.SentIsNeverFailed` | src/recovery/transaction.rs:252-379 | once a send was attempted no continuation records its key as Failed, in memory or on disk; only Succeeded or HumanRequired can close it (probe sound) |
| `ProbeNeeded.BlindProbeBreaksSafety` | src/recovery/transaction.rs:277-301 | for every admitted input action and every probe answer without the live owner some run types the action and then records Failed |
| `ProbeNeeded.ProbeConditionIsExact` | src/recovery/transaction.rs:277-301 | for any set of probe answers: no run records a sent action as Failed if and only if every answer holds the live owner |
| `LedgerShape.EachKeyOneStretch` | src/recovery/action_store.rs:64-147 | each claimed key fills one contiguous stretch of exactly one target's audit, closed by nothing but its last record |
| `LedgerShape.ActiveIffOpen` | src/recovery/action_store.rs:96-110 | a target is active exactly when its audit ends in an open record, which is the active one |
| `LedgerShape.PhasesFollowProtocol` | src/recovery/transaction.rs:344-450 | with a sound probe the phases of every key begin one of ten protocol words |
| `Success.SuccessIsEarned` | src/recovery/transaction.rs:412-450 | a Succeeded record belongs to an executed action, and for input a reading after the send proves it |
| `Readings.VerifiesExactly` | src/recovery/transaction.rs:641-734 | a reading verifies if and only if its fields prove success: same target, nobody at it, a new fingerprint, and Claude progress in the named session at a later time, or a named outcome shown on evidence no weaker |
| `Readings.RevalidatesExactly` | src/recovery/transaction.rs:490-547 | a reading passes if and only if it is clear: target revalidated, process alive, pane matching, evidence current, no human, a safe composer for input, the fingerprint and resume session the action names, and after the first reading the same identity, source and confidence |
| `Readings.ObjectionsAreTrue` | src/recovery/transaction.rs:495-545 | each objection states a fact about the reading |
| `Story.AdmitsExactly` | src/recovery/transaction.rs:310-316 | a transaction gets as far as its claim if and only if its action is well formed, two readings are clear and of one source, and budgets, literals and every declared precondition hold of the first |
| `Story.EveryCallIsGrounded` | src/recovery/transaction.rs:303-364 | in every run three clear readings of one source stand behind each executor call, the last taken after the claim, and every declared precondition was true of the first |
| `Story.SuccessfulAnswers` | src/recovery/transaction.rs:365-450 | in every run a transaction that answers success called the executor, typed if it types, got the receipts it promised, and then saw the proof if it awaits progress |
| `Filing.EveryRecordIsTraced` | src/recovery/transaction.rs:317-333 | in every run each record, in memory or on disk, has the target, action, key, evidence and lease of a transaction started in that run |
| `Filing.LeaseProtects` | src/recovery/transaction.rs:277-301 | a stale-lease scan reads only what was prepared more than thirty seconds before, by an owner that is not found |
| `Turns.ConfirmTurns` | src/recovery/transaction.rs:341-343 | after the claim an unclear reading closes the transaction with the objection it raises |
| `Turns.ReturnTurns` | src/recovery/transaction.rs:350-364 | an executor error is rejected if it denies side effects, and escalated otherwise |
| `Turns.ReceiptTurns` | src/recovery/transaction.rs:380-394 | a missing receipt is uncertain; with it the transaction polls if and only if it awaits progress |
| `Turns.PollTurns` | src/recovery/transaction.rs:412-450 | which reading escalates, proves success, times out or is followed by another |
| `Turns.AcknowledgedTurns` | src/recovery/transaction.rs:453-489 | an acknowledged write takes each stage to the next, with its phase and reason |
| `Turns.LostTurns` | src/recovery/transaction.rs:334-411 | a refused or lost write ends the transaction with its fault, or is escalated once something was sent |
| `Turns.CrashTurns` | src/recovery/transaction.rs:252-275 | the daemon can die in any state, and then only the disk and what was done is left |
| `Turns.RestartTurns` | src/recovery/transaction.rs:252-275 | it starts again from disk, as another owner, and serves after closing what it found open |
| `Turns.RecoveryTurns` | src/recovery/transaction.rs:252-275 | how an open record is closed at restart, by its phase and by how the write fared |
| `Turns.ScanTurns` | src/recovery/transaction.rs:277-290 | a scan notes an active record if and only if its lease ran out and its owner is not found |
| `Turns.ScanCloseTurns` | src/recovery/transaction.rs:290-301 | it then closes what it noted if the target is still held under that key, whatever its phase by now |
| `Success.OnlyAllowedInput` | src/policy.rs:118-155 | whatever any run types is one of four literals or keys from the actuator's table |
| `ActionForms.ValidExactly` | src/model/action.rs:147-212 | an action passes validation if and only if its names, lengths, counts and kinds are those the schema allows, lengths counted in UTF-8 bytes |
| `Permissions.AuthorizesExactly` | src/policy.rs:60-187 | the policy says yes if and only if evidence is fresh, every declared precondition is one it knows and true, the budgets cover the wait or the planner, input is a known literal or key for an empty composer, and nothing of higher rank contradicts |
| `Permissions.DenialsAreTrue` | src/policy.rs:60-155 | each denial states a fact about the action and its context |
| `Policy.AuthorizedInput` | src/policy.rs:60-155 | input that actuator and policy accept is allowed text or keys, into an empty composer, with attempts left |
| `Ledger.AfterKeepsWellFormed` | src/recovery/action_store.rs:64-147 | each accepted claim, append or escalation keeps a ledger well formed |
| `ActionStore.JsonStore.Write` | src/store.rs:63-107 | a write fails before the rename and leaves the file, or after it and leaves the new one; nobody finds a partial file |
| `ActionStore.JsonActionStore.ClaimPrepared` | src/recovery/action_store.rs:64-81 | a claim is refused when the target is active or the key is known; memory changes only after a durable write |
| `ActionStore.JsonActionStore.DoAppend` | src/recovery/action_store.rs:83-111 | an append swaps on key and action id, and a terminal record releases the target |
| `ActionStore.JsonActionStore.EscalateUncertain` | src/recovery/action_store.rs:113-147 | uncertainty and the human hand-off are stored together or not at all |
| `ActionStore.JsonActionStore.RecoverAfterRestart` | src/recovery/transaction.rs:252-275 | what an earlier daemon left open is closed as Failed only if still Prepared, else handed to a human |
| `Executor.Actuate` | src/recovery/actuator.rs:169-223 | exactly the strokes up to the first failing one leave; success means all of them did |
| `Executor.Execute` | src/daemon/recovery_runtime.rs:339-376 | strokes leave if and only if nothing was cancelled, a live reading shows the target alive, in its pane and unattended, the snapshot matches and the actuator accepts; an error that denies side effects means nothing was typed; late cancellation is always uncertain |
| `Executor.StrokesType` | src/recovery/actuator.rs:169-223 | an action is typed as its text, its text submitted, or each of its keys in turn |
| `Transaction.Run` | src/recovery/transaction.rs:303-451 | one transaction is turned away untouched if and only if the actuator, its first two readings or the policy refuse it; else it performs a run of the step system, on the readings, clocks and writes it was given in their order, up to its result or as long as it polls; typing is followed only by success, uncertainty or a store fault |
| `Transaction.Commit` | src/recovery/transaction.rs:341-364 | after the claim: confirm, commit, act, following the step system; success types every stroke and was verified |
| `Transaction.Settle` | src/recovery/transaction.rs:365-411 | after the executor: record, check the receipt, start polling, following the step system |
| `Transaction.Verify` | src/recovery/transaction.rs:412-450 | whatever the clock does polling follows the step system and stops at the first reading that decides: success only if that one proves it, no time-out before the deadline; if sleeping advances the clock it ends within timeout * 10 + 1 readings |
| `Transaction.React` | src/recovery/transaction.rs:413-449 | one reading gives up, succeeds, times out or decides nothing, following the step system |
| `Transaction.Persist` | src/recovery/transaction.rs:453-465 | the next record is returned exactly when the ledger acknowledged it |
| `Transaction.Terminate` | src/recovery/transaction.rs:466-478 | a rejection is recorded as Failed and returned, or the store's fault is |
| `Transaction.GiveUp` | src/recovery/transaction.rs:479-489 | an uncertain outcome is escalated and returned, or the store's fault is |
| `Transaction.RecoverStale` | src/recovery/transaction.rs:277-301 | a record is closed only when its lease ran out and its owner is not found, as two steps of the step system |
| `StateMachine.RecoveryMachine.Execute` | src/recovery/state_machine.rs:53-69 | every command leaves the machine and answer its specification gives |
| `StateMachine.RecoveryMachine.DoBegin` | src/recovery/state_machine.rs:163-189 | an attempt is refused for the first of six reasons, or charged |
| `StateMachine.RecoveryMachine.DoFail` | src/recovery/state_machine.rs:190-205 | the wait is charged before the transition is checked |
| `StateMachine.RecoveryMachine.DoSucceed` | src/recovery/state_machine.rs:206-214 | success completes the current fingerprint |
| `StateMachine.RecoveryMachine.Transition` | src/recovery/state_machine.rs:229-253 | only the eight legal moves change state, and each is audited |
| `MachineRuns.EveryRunKeepsBudgets` | src/recovery/state_machine.rs:139-254 | over all command sequences with restarts attempts, waits and planner calls stay in budget, the machine rests in five states, and its audit chains from NeedsRevalidation to its state |
| `MachineRuns.CountersCount` | src/recovery/state_machine.rs:163-228 | each counter equals what the run was charged |
| `MachineRuns.EachFingerprintSucceedsOnce` | src/recovery/state_machine.rs:163-214 | no fingerprint succeeds twice in any run |
| `MachineRuns.CooldownSpacesAttempts` | src/recovery/state_machine.rs:180-187 | attempts are spaced by the cooldown in all runs if and only if a second attempt is impossible or the cooldown is a positive number of whole seconds |
| `MachineRuns.RefusalChangesOnlyTheWait` | src/recovery/state_machine.rs:190-205 | a refused command changes the machine exactly when it is a matching failure report outside Acting that fits the budget |
| `MachineRuns.OverflowNeedsUnlimitedBudget` | src/recovery/state_machine.rs:196-201 | the wait addition overflows only under a budget of the longest duration |
| `MachineRuns.LegalExactly` | src/recovery/state_machine.rs:229-240 | the legal moves are eight literal pairs |
| `MachineHistory.AcceptsExactly` | src/recovery/state_machine.rs:139-228 | after any run a command is accepted if and only if the commands accepted before and the waits charged allow it: each success and failure names the action just begun, each action the evidence just confirmed; no state is mentioned |
| `MachineHistory.RefusesExactly` | src/recovery/state_machine.rs:163-228 | after any run a refused command changes nothing, except that a failure report on the evidence at hand is charged if it fits |
| `MachineHistory.RefusalsAreTrue` | src/recovery/state_machine.rs:163-253 | each refusal states a fact about the machine |
| `Budgets.LastAttemptNeverActs` | src/daemon/recovery_runtime.rs:539-599 | over one machine's life, crashes included, at most n - 1 actions of a budget of n reach the executor, and none of them twice |
| `BudgetReached.BoundIsReached` | src/daemon/recovery_runtime.rs:539-624 | for every budget of n attempts some life of commands the daemon issues performs n - 1 attempts with different keys, and some run of the step system executes exactly these keys in this order |
| `BudgetReached.AttemptsArePerformed` | src/daemon/registry.rs:440-478 | any n - 1 or fewer admissible attempts on limits a hook reported, with different evidence and keys and spaced by the cooldown, are all performed, in order, by happenings the daemon issues |
| `SampleRun.EnterRuns` | src/recovery/transaction.rs:303-451 | from any serving state with the target free and the key unclaimed, an admitted Enter on any evidence fingerprint runs to Succeeded with exactly one executor call, under its key, and frees its target |
| `Budgets.PermittedHasAttempts` | src/policy.rs:77-79 | a permitted action leaves an attempt over after its own was charged |
| `Budgets.HandsOutExactly` | src/recovery/transaction.rs:167-206 | budgets are handed to a confirmed or acting machine on actionable evidence only, and are what was not spent |
| `Budgets.NoPlannerIsAsked` | src/recovery/transaction.rs:167-206 | no planner is ever on offer, so nothing permitted escalates to one |
| `Budgets.CrashLooksAgain` | src/daemon/registry.rs:95-126 | after a crash the machine must look again, keeps what it spent and finished, and cannot act |
| `Watchers.CommitNeverIllegal` | src/daemon/registry.rs:424-487 | committing an observation fails only when the revision is full, never for an illegal machine command |
| `Watchers.CommitConfirmsItsEvent` | src/daemon/registry.rs:466-480 | a machine newly Confirmed holds the committed event's fingerprint, on actionable and stable evidence |
| `Watchers.EditKeeps` | src/daemon/registry.rs:256-487 | every edit raises the revision by one, keeps multiplexer targets and attached sessions, and only a retarget moves the target |
| `Watchers.RefreshKeeps` | src/daemon/registry.rs:185-236 | registering again keeps the process, a multiplexer target and attached sessions |
| `Edits.EditExactly` | src/daemon/registry.rs:256-423 | an edit is stored if and only if the revision is not full and the machine accepts the command; it changes its own field and raises the revision |
| `Edits.CommitExactly` | src/daemon/registry.rs:424-487 | what a committed event makes of schedule, lifecycle and machine: when it looks again, is armed anew after a wait or a new limit, and is confirmed |
| `Edits.RefreshExactly` | src/daemon/registry.rs:185-254 | when registering again clashes, changes nothing, starts over, resumes or validates, and what each of these resets |
| `Edits.NewProcessIsAdded` | src/daemon/registry.rs:142-183 | an unwatched process is added, unless the name is taken |
| `Edits.KnownProcessIsRenewed` | src/daemon/registry.rs:142-183 | the one watcher of a process is renewed, kept, or in the way |
| `Edits.WakeExactly` | src/daemon/registry.rs:488-520 | a wake is noted unless one is pending or the same one ended less than a minute ago |
| `Registry.RegistryStore.Register` | src/daemon/registry.rs:142-183 | registration adds, refreshes or refuses as planned; the table changes only after a durable write |
| `Registry.RegistryStore.Refresh` | src/daemon/registry.rs:185-254 | a refresh is refused, unneeded, or promotes, upgrades or revalidates the watcher |
| `Registry.RegistryStore.EditWatcher` | src/daemon/registry.rs:256-423 | an unknown id, full revision, bad command or lost write changes nothing in memory |
| `Registry.RegistryStore.CommitObserved` | src/daemon/registry.rs:424-487 | an observation is absorbed by the machine and stored in one write |
| `Registry.FindFirst` | src/daemon/registry.rs:152-165 | the match found is the first in key order |
| `Registry.RegisterMoves` | src/daemon/registry.rs:142-254 | registration changes one watcher, which is new on an unknown process or keeps its process with a higher revision |
| `Registry.RegisterKeepsUnique` | src/daemon/registry.rs:160-183 | registration keeps at most one watcher per process |
| `Registry.ReplayKeeps` | src/daemon/registry.rs:95-126 | starting again keeps a watcher's target and sessions |
| `Restarts.ReplayExactly` | src/daemon/registry.rs:95-126 | a watcher is taken up again if and only if its machine is of the known form and its revision not full; every machine then needs revalidation, with one audit edge more and everything spent or finished kept; the revision rises exactly with the lifecycle change |
| `Restarts.NothingBeginsUnseen` | src/daemon/registry.rs:95-126 | in every run after a restart no action begins for a watcher until an observation or registration was committed for it, or its machine was set or told it is revalidated |
| `Restarts.RestartExactly` | src/daemon/registry.rs:75-140 | a restart finds what is on disk, replayed, serves only if it could store that, and knows no token |
| `Restarts.OperationExactly` | src/daemon/registry.rs:142-254 | an operation is known when it was stored, and on disk unless it was lost altogether |
| `Restarts.FreshTokenSends` | src/daemon/registry.rs:281-296 | a token just taken can be sent on |
| `Dispatch.SendsAreFresh` | src/daemon/recovery_runtime.rs:328-361 | in every interleaving a send happens only if nothing was committed for its watcher since the snapshot |
| `Dispatch.NothingIsLost` | src/daemon/registry.rs:75-254 | over all runs with lost writes and restarts a multiplexer target stays one and an attached session stays that session |
| `Dispatch.OneWatcherPerProcess` | src/daemon/registry.rs:142-183 | without a retarget no run gives two watchers one process |
| `Debounce.CounterIsTheStreak` | src/daemon/recovery_jobs.rs:216-235 | the screen counter equals the run of equal actionable screens that ends what was committed |
| `Debounce.ScreenConfirmsOnlyTwice` | src/daemon/recovery_jobs.rs:216-252 | a screen event confirms only if the last two committed screens are actionable with its fingerprint |
| `Debounce.SecondScreenConfirms` | src/daemon/recovery_jobs.rs:216-252 | in every run the second equal actionable screen in a row, once stored, does confirm a machine that watches |
| `Debounce.TickExactly` | src/daemon/registry.rs:424-487 | what a tick leaves in memory and on disk, by how its write fared |
| `Debounce.OfferExactly` | src/daemon/recovery_jobs.rs:216-235 | only an observed screen adds to the screens; a restart goes back to those on disk |
| `Debounce.PossibleExactly` | src/daemon/recovery_jobs.rs:216-252 | while up the loop can observe anything at any time, and a restart can come whenever |
| `Supervisor.NoJobOutlivesShutdown` | src/daemon/recovery_jobs.rs:42-85 | in every interleaving all jobs ever spawned have finished when shutdown is acknowledged |
| `Supervisor.TakenListIsFinal` | src/daemon/recovery_jobs.rs:64-67 | no continuation spawns a job after the list was taken |
| `SupervisorProgress.ShutdownCompletes` | src/daemon/recovery_jobs.rs:42-85 | from every state a run can reach, shutdown can go on to its acknowledgement |
| `SupervisorProgress.ScheduleRuns` | src/daemon/recovery_jobs.rs:42-57 | while it accepts, any new job handed over is run and listed |
| `SupervisorProgress.LateCallersAreRefused` | src/daemon/recovery_jobs.rs:47-50 | a caller that looks after shutdown began goes away without a job |
| `Lifecycle.LifecycleMonitor.Observe` | src/process/mod.rs:310-344 | a process is alive, gone within its grace, succeeded by the only strong match, or over |
| `Lifecycle.LifecycleMonitor.CommitReexec` | src/process/mod.rs:346-349 | adoption takes the new identity and forgets the absence |
| `Lifecycle.Candidates` | src/process/mod.rs:336-339 | the candidates are exactly the strong matches on the terminal |
| `LifecycleDecisions.KinExactly` | src/process/mod.rs:358-381 | a successor is of the same user and terminal, in the same group or session with none contradicting, and the same kind of agent |
| `LifecycleDecisions.DecidesExactly` | src/process/mod.rs:310-344 | alive if and only if the same process runs; terminated if and only if another has its number, it cannot be read, or it is gone too long; succeeded if and only if exactly one process on its terminal is kin |
| `LifecycleDecisions.NotesExactly` | src/process/mod.rs:321-327 | the first absence is noted while there is a grace, and kept |
| `LifecycleDecisions.VisitExactly` | src/daemon/lifecycle.rs:40-76 | what a visit makes of watcher and monitor, by its decision and by whether the registry could store it |
| `Lifecycle.MonitorTask.Visit` | src/daemon/lifecycle.rs:40-76 | one watcher's visit changes only that watcher and its monitor, and the monitor adopts only what the registry stored |
| `Lifecycle.MonitorTask.Tick` | src/daemon/lifecycle.rs:33-78 | one tick visits every watcher once |
| `LifecycleRuns.MonitorsFollowRegistry` | src/daemon/lifecycle.rs:33-78 | in every run, lost writes and restarts included, monitor and registry agree on process and start time |
| `LifecycleRuns.GoneTickTerminates` | src/process/mod.rs:321-329 | a tick that finds the process gone terminates if and only if the first absence is longer ago than the grace |
| `LifecycleRuns.OverdueStays` | src/process/mod.rs:321-329 | once overdue, with a clock that does not go back, every later tick that finds it gone terminates, whatever appears on the terminal |
| `LifecycleRuns.ClockBackReprieves` | src/process/mod.rs:326-343 | a clock set back adopts a successor after a tick had terminated |
| `Codex.FoldIsRule` | src/agents/codex_state.rs:169-220 | the three-variable fold is the rule: the last start, completion or user message completes a turn whose last capacity message since a reset came while it was current |
| `Codex.Verdict` | src/agents/codex_state.rs:169-220 | on any bytes the loop gives the rule's verdict on all lines, an unfinished last one included, or none if a line is too long or not JSON |
| `Codex.SuffixNeverInvents` | src/agents/codex_state.rs:234-262 | a suffix never claims a block the whole log denies, and is exact once it holds a turn start |
| `Codex.ReadTail` | src/agents/codex_state.rs:234-262 | positioned reads of any sizes give the line-aligned end of the file |
| `Codex.TailNeverInvents` | src/agents/codex_state.rs:234-262 | on bytes: a block read from the tail stands whatever the dropped lines say, and is the verdict on the whole file where that can be read |
| `LineSpans.RecordsExactly` | src/agents/codex_state.rs:174-177 | the records are the stretches between newlines, in order, and no byte but a newline is outside them |
| `LineSpans.TailExactly` | src/agents/codex_state.rs:240-262 | the tail is missing if and only if the last line is unfinished; it is the file, or what follows the first newline of its last 1 MiB |
| `Sanitizer.TerminalSanitizer.Feed` | src/observe/screen.rs:16-104 | with any limits the text is valid UTF-8 without C0 bytes but newline and without DEL, within both bounds, so the final cut is unreachable |
| `Sanitizer.ChunkingIsInvisible` | src/observe/screen.rs:16-104 | limits that do not bind: every chunking of a byte stream gives the text of one feed |
| `Sanitizer.CleanTextPasses` | src/observe/screen.rs:37-64 | clean valid text is emitted unchanged |
| `Sanitizer.SanitizeTwice` | src/observe/screen.rs:16-104 | sanitizing what was sanitized changes nothing, with any limits |
| `TerminalStreams.EveryStreamIsSanitized` | src/observe/screen.rs:16-104 | every byte stream reads as characters, control sequences, control strings, short escapes, stray, garbled and torn bytes, and an unfinished rest; with any limits the text is its characters there is room for, in order, without direction marks |
| `TerminalStreams.KeepsTheCharacters` | src/observe/screen.rs:16-104 | likewise for every reading of a stream |
| `TerminalStreams.SegmentCloses` | src/observe/screen.rs:37-89 | each closed segment brings the machine back to its start, and only a character is emitted |
| `Utf8.BoundaryIffValid` | src/mux/tmux.rs:375-378 | in a valid text a prefix is valid exactly at a character boundary |
| `JsonEscapes.WholeIffEncoded` | src/mux/tmux.rs:375-378 | a byte sequence is a character if and only if it is the encoding of a scalar value |
| `Capture.ReadBounded` | src/mux/tmux.rs:429-447 | reads of any size keep exactly the first limit + 1 bytes |
| `Capture.Truncate` | src/mux/tmux.rs:362-384 | the result is the longest whole-character prefix within the bound, with the exact error condition |
| `Capture.CaptureTail` | src/mux/tmux.rs:150-179 | any stream gives its longest whole-character prefix within the bound, and the flag exactly when it is longer, or an error exactly when the bytes looked at are broken by more than the cut; a valid stream is never an error |
| `Jsonl.JsonlCursor.ReadNew` | src/observe/jsonl.rs:77-151 | on any file the carried fragment fits a record, a batch fits its bound, and cursor and batch are what one read should give |
| `JsonlBatches.BatchExactly` | src/observe/jsonl.rs:93-151 | queued records go out first, in order and as many as fit, the others stay; malformed and oversized count exactly the lines that are so |
| `JsonlBatches.StartsExactly` | src/observe/jsonl.rs:82-92 | a rewritten or shortened file is read from its beginning with nothing carried over |
| `JsonlRuns.ExactlyWhenNothingIsLost` | src/observe/jsonl.rs:77-151 | for every growing file, all limits and every read sequence, delivered and pending records are those of the complete lines consumed that fit and parse, in order, if and only if no read starts, discarding with nothing carried or pending, on a newline before a line that is a record |
| `JsonlRuns.NothingSkippedNothingTwice` | src/observe/jsonl.rs:77-151 | so nothing is lost when every line and fragment fits |
| `Jsonl.EveryLineCounted` | src/observe/jsonl.rs:128-142 | every line is delivered, malformed or oversized, and only one of these |
| `JsonlRuns.LimitsThatLose` | src/observe/jsonl.rs:128-146 | some growing file loses a record if and only if the limits let it read at all and some line is a record |
| `JsonlRuns.TrapLoses` | src/observe/jsonl.rs:128-146 | and for all such limits and every record this file does: one byte too many, its newline, the record, written byte by byte |
| `StrictParser.ParseStrict` | src/planner/schema.rs:94-105 | the parser ends on every input and answers what the specification does; success means all input was read and the value is strict |
| `StrictParser.Parser.ReadValue` | src/planner/schema.rs:135-151 | the method follows the specification from any index |
| `StrictParser.Parser.ReadObject` | src/planner/schema.rs:162-193 | likewise, for objects |
| `StrictParser.Parser.ReadArray` | src/planner/schema.rs:195-213 | likewise, for arrays |
| `StrictParser.Parser.ReadString` | src/planner/schema.rs:215-241 | likewise, for string literals |
| `StrictParser.Parser.ReadNumber` | src/planner/schema.rs:243-281 | likewise, for numbers |
| `StrictJson.AcceptedIsStrict` | src/planner/schema.rs:94-282 | an accepted value has distinct decoded keys in every object at every depth, numbers in range and valid texts |
| `JsonDerives.AcceptedIffDerived` | src/planner/schema.rs:94-282 | bytes are accepted as a value if and only if the JSON grammar (with form feed as a blank) derives that value from it and the value is strict |
| `JsonAccepts.TreeParses` | src/planner/schema.rs:135-281 | every text of the grammar with numbers in range is read, up to whatever may follow it, as its value, or refused for a repeated key and nothing else |
| `JsonNumbers.NumberIffScanned` | src/planner/schema.rs:243-281 | the scanner reads a text to its end if and only if it is a number of the grammar |
| `JsonRoundTrip.RenderedParses` | src/planner/schema.rs:94-282 | the compact rendering of a value of valid texts and numbers parses back to it if its keys are distinct at every depth, and is refused as a duplicate otherwise |
| `JsonRoundTrip.ParseRenderParse` | src/planner/schema.rs:94-282 | parsing, rendering and parsing again gives the first value |
| `JsonText.DecodeRendered` | src/planner/schema.rs:238-240 | decoding the escapes of a rendered text gives the text |
| `JsonText.DecodedEnds` | src/planner/schema.rs:220-237 | the scan of a decodable string stops at its closing quote |
| `JsonEscapes.DecodesExactly` | src/planner/schema.rs:215-241 | a string body decodes to a text if and only if the grammar of escapes, surrogate pairs included, reads it so |
| `JsonStrings.DecodeIsValid` | src/planner/schema.rs:238-240 | decoding a valid literal gives valid UTF-8 |
| `JsonText.NumberAlone` | src/planner/schema.rs:243-281 | a number's lexeme is a number by itself |

## Left out

- Transaction.Run: runs alone between its store calls; interleavings with other transactions, scans and crashes are in the step system it follows.
- Transaction.Verify: follows the polling for a given number of readings, since nothing bounds it while the clock stands still.
- BudgetReached.BoundIsReached: the life and the run it names share their keys; that each transaction of the run starts between the begin and the success of its attempt is not stated.
- Restarts.NothingBeginsUnseen: a machine set by hand or told it is revalidated counts as seen; the daemon itself does neither after a restart.
- NoBlindRetry.SentIsNeverFailed: assumes the process probe recognises the live owner; how accurate the probe is, is not modelled.
- Dispatch.OneWatcherPerProcess: excludes retargeting, which takes any identity.
- Dispatch.SendsAreFresh: counts only changes the registry acknowledged; a change reported as failed may be on disk.
- Jsonl.JsonlCursor.ReadNew: rewrite detection by sampled digests is one boolean.
- LifecycleRuns.MonitorsFollowRegistry: stopping the scheduler for an ended watcher is not modelled; which agent an executable is, is a parameter.
- Supervisor.NoJobOutlivesShutdown: the one-second grace and the hand-off it persists, and aborting the observation task, are not modelled.
- StrictJson.AcceptedIsStrict: whether a number fits its type is a parameter, error texts are not told apart, and an object keeps its members in written order.
- Codex.Verdict: what a JSON line means to the fold is a parameter.
- Record and error texts are enumerations; serialization, file permissions, symbolic links, quarantine of corrupt files and schema versions other than the machine's are not modelled.
- The policy's list of forbidden words is not repeated, since none of its four literals contains one.
- Evidence readers, tmux and Herdr, /proc, SQLite, clocks and time zones are inputs of the model, not part of it.
- Fingerprints, digests and redaction are opaque values.
- The planner's budget over concurrent threads, and its process handling.
- The scheduler's own map of watchers, idle shutdown, and the IPC and connection handling of the daemon.
- Provenance of screen lines, live bottoms and tmux chrome.
- Discovery and scoring of candidate processes.
- The command line, doctor, notifications, configuration defaults, snapshots and audit rendering.
