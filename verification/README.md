# Verified model of the durable execution layer

The application runs a small business (vehicles, tasks, messages, money) with people, agents and connected
clients acting on one database. This project models the layer that keeps their work safe, and proves what that
layer is for:

- the **job queue**: leases, fencing tokens, retries, recovery, deduplication (`Jobs.dfy`, `JobQueue.dfy`);
- the **agent runtime**: runs and missions under leases (`Runs.dfy`, `RunStore.dfy`), what holds of missions over whole
  runs (`Missions.dfy`), the bounded model/tool loop (`AgentLoop.dfy`), checkpoint trimming (`Trim.dfy`), the due-mission sweep (`Sweep.dfy`), the
  progress feed (`Updates.dfy`);
- the **command dispatcher**: idempotent execution and standing permissions (`Commands.dfy`, `CommandStore.dfy`),
  record scope on the write and the read side (`Policy.dfy`), the decision itself (`Decisions.dfy`);
- the **outbox**: a savepoint per handler and bounded retries (`Outbox.dfy`);
- **tool schemas**: inlining of possibly recursive definitions (`Schema.dfy`, `SchemaMeaning.dfy`,
  `SchemaStrict.dfy`, `SchemaExact.dfy`);
- **exact arithmetic**: rounding, splitting, printing and parsing money, calendar periods (`Money.dfy`,
  `MoneyText.dfy`, `Calendar.dfy`).

`dafny verify dfyconfig.toml` checks everything.

## How it is built

The concurrent parts are state machines. A state is the shared tables together with what every worker holds in its
hands; a step is one committed transaction; a run is any sequence of enabled steps, so a theorem about `Exec` is a
theorem about every interleaving of any number of workers. Beside each machine stands a class with the tables as
fields and the code's operations as methods that update them in place; each method is proved to take exactly the
steps of the machine, so the theorems carry over. Loops of the code are loops here.

Decisions of the outside world are parameters: the clock, tokens (fresh, never reused), which rows a `SELECT`
returned (constrained by a predicate that says what it may return), replies of the model, results of tools and
handlers, `fnmatch`, lower-casing, role tables. Payload hashes are the payloads themselves.

Taken as single atomic steps: the check-then-write branches of `run_one` (backend/app/domain/jobs.py:119-127 and
144-156), the cancellation of queued jobs (backend/app/agent/runtime.py:295-299), the two reads at the start of the
mission.run job (backend/app/agent/runtime.py:801-806), reading run and mission again and writing the mission after a
lost lease (backend/app/agent/runtime.py:729-748), one pass of the due-mission sweep in `Sweep.dfy`
(backend/app/agent/runtime.py:855-868), and reserving a permission together with the commit that follows,
because the row stays locked in between (backend/app/domain/commands.py:319). Taken as separate steps, with anything in
between: the two halves of `enqueue`, the lookup and the commit of `dispatch`, loading a mission and resuming,
reopening, pausing or cancelling it, starting an inline run and claiming it, the status check of the loop and what
follows it, and the two transactions of `_finish`.

## What the proofs found

Statements one might expect that the code does not satisfy. Each has a theorem that says exactly when it does hold, or
how far, and most have an instance:

- A cancellation lasts exactly when nobody who loaded the mission earlier is still about to act on it
  (`CancellationHoldsExactlyWhenQuiet`): a finisher between its two transactions, a caller about to run the mission
  inline, a resume, reply or revocation in flight. `InlineStartUndoesCancellation` is an instance.
- Fencing protects the run row, always, but not the mission: a superseded worker can overwrite the mission of a succeeded
  run (`SucceededMissionCanBeOverwritten`). `FinishedHoldsExactlyWhenSettled` says exactly when a finished mission is
  safe.
- An execution of the mission.run job that finds the run's lease live is skipped and ends the job, so a run whose worker
  then dies stays running for ever (`JobCanEndWhileItsWorkerRuns`, `SkippedJobStrandsARun`). `StrandedExactlyWhenAbandoned` is the exact condition.
- Recovery ignores `max_attempts`, so attempts can exceed it (`AttemptsCanExceedMax`); the bound that holds is
  `max_attempts` plus the number of lease expiries (`ClaimsAreConserved`).
- Overlapping dispatches of one request id are not compared with each other (`OverlappingReuseIsNotRefused`,
  `MismatchedExactlyWhenOvertaken`); sequential reuse is (`SequentialReuse`).
- Write scope differs from read scope exactly for limited people or agents without a user id, who see the vehicles
  of unowned tasks (`WriteScopeIsReadScope`).
- The docstring at backend/app/agent/runtime.py:147-151 promises that a mission never gains authority. It gains none
  exactly when its person's row is still there and the person has neither become owner nor lost the limit on records
  since (`MissionGainsNothingExactly`): permissions are frozen, role and record scope are not, and a mission whose
  person's row is gone acts as the system.
- An outbox retry repeats the handlers that succeeded, exactly when a dispatch that was not the fifth reports an error
  (`RepeatedExactlyAfterErrors`, `RunsOnceExactlyUnlessRetried`, `RetryRepeatsSucceededHandlers`).
- The last part of a balanced split can be negative (`LastPartCanBeNegative`), but not when its exact share is at least
  half a minor unit for every other part (`LastPartIsSafe`), and no smaller bound would do (`LastPartReachesTheBound`).
- Inlining changes the meaning of definitions that are degraded and are not objects (`RecursiveArrayIsNotPreserved`) and
  leaves dangling references below objects without properties (`FreeObjectKeepsReferences`).

The commit at backend/app/domain/jobs.py:136 comes before the row count is looked at, so writes of a stale worker's
handler can land. Handler writes are not part of the queue model: what is proved about fencing is about the job row.

## Model

| member | source | states |
|---|---|---|
| JobProtocol.ExecKeepsInv | backend/app/domain/jobs.py:50-157 | in every interleaving of enqueue, claim, heartbeat, complete, fail, recover, cancel and crash the queue invariant holds: issued tokens, unique dedupe keys, accounted claims |
| JobProtocol.LostTokenStaysLost | backend/app/domain/jobs.py:82-108 | once a row carries another token or none, the old token never returns to it, over every run |
| JobProtocol.StaleWorkerIsPowerless | backend/app/domain/jobs.py:50-56 | a worker that lost its lease changes its job's row at no later point of any run, by heartbeat, completion, failure or start |
| JobProtocol.WorkerTouchesOnlyItsRow | backend/app/domain/jobs.py:116-157 | a worker changes no row but the one that carries its token |
| JobProtocol.DoneOnlyByHolder | backend/app/domain/jobs.py:132-138 | a job becomes done exactly by the completion of the worker whose token it carries while it runs |
| JobProtocol.FinishedStays | backend/app/domain/jobs.py:102-157 | done, failed and cancelled are never left, and nothing but the dedupe key of such a row ever changes |
| JobProtocol.FencingCountsClaims | backend/app/domain/jobs.py:94-95 | the fencing number counts the claims of the job in the run, one by one |
| JobProtocol.LaterClaimFencesEarlier | backend/app/domain/jobs.py:89-97 | of two claims of one job the later has a strictly larger fencing number and another token |
| JobProtocol.RecoverTakesExactlyTheExpired | backend/app/domain/jobs.py:102-108 | recovery changes exactly the running jobs whose lease ended before now; they are queued again without token and lease, with their attempts and fencing number |
| JobProtocol.CancelTakesExactlyTheQueued | backend/app/agent/runtime.py:295-299 | cancelling stops exactly the named jobs that are still queued, and changes nothing but their state |
| JobProtocol.LeaseProtects | backend/app/domain/jobs.py:50-56 | a worker still holds its row, unchanged but for the end of its lease, after every continuation whose recoveries come no later than the lease its last claim or heartbeat set |
| JobProtocol.ClaimIsKept | backend/app/domain/jobs.py:82-108 | from a claim on, whose lease lasts 120 seconds, the same over every continuation, with one attempt and one fencing number more |
| JobProtocol.ClaimsAreConserved | backend/app/domain/jobs.py:89-155 | attempts = fencing number = claims = failure requeues + expiries + one if running, done or failed; a job is claimed at most max_attempts plus its expiries times |
| JobProtocol.AttemptsCanExceedMax | backend/app/domain/jobs.py:102-108 | recovery ignores max_attempts: an instance with attempts 2 of 1 |
| JobProtocol.JobCanEndWhileItsWorkerRuns | backend/app/domain/jobs.py:102-138 | every job whose lease has expired can be recovered and done by another worker while its first worker still executes it |
| JobProtocol.OneLiveJobPerKey | backend/app/domain/jobs.py:59-79 | over every run at most one queued or running job was enqueued under a key |
| JobProtocol.EnqueueInsertsUnlessLive | backend/app/domain/jobs.py:65-79 | an undisturbed enqueue inserts exactly when no live job was enqueued under its key and the name for the finished holder is free |
| JobQueue.JobTable.LookUpKey | backend/app/domain/jobs.py:65-69 | refuses exactly when a live job was enqueued under the key; otherwise remembers the finished holder of a non-empty key |
| JobQueue.JobTable.InsertJob | backend/app/domain/jobs.py:70-79 | renames the finished holder to key#id and inserts a fresh queued row, or rolls both back on a unique violation |
| JobQueue.JobTable.ClaimDue | backend/app/domain/jobs.py:82-99 | every selected row runs under its own token for 120 seconds, with one more attempt and fencing number; all other rows stay as they are |
| JobQueue.NothingMoreUrgentIsLeft | backend/app/domain/jobs.py:84-87 | a due, unlocked job is left behind only by a full batch of jobs with a higher priority, or the same one and due no later; the batch is in that order |
| JobQueue.JobTable.RecoverExpired | backend/app/domain/jobs.py:102-108 | a row changes exactly when it was running with a lease that ended before now; it is then queued without token and lease, nothing else of it changes, and the count is that of the changed rows |
| JobQueue.JobTable.StartRun | backend/app/domain/jobs.py:116-128 | executes only under the lease and with a handler; without a handler the job fails, without the lease nothing changes |
| JobQueue.JobTable.ExtendLease | backend/app/domain/jobs.py:50-56 | extends the lease exactly while the row carries this token, and says so |
| JobQueue.JobTable.CompleteRun | backend/app/domain/jobs.py:132-138 | the fenced completion: effective exactly under the lease |
| JobQueue.JobTable.FailRun | backend/app/domain/jobs.py:139-156 | under the lease: failed when the attempts are used up, otherwise queued again at the retry time; the token goes either way; without the lease nothing changes |
| JobQueue.JobTable.RunOne | backend/app/domain/jobs.py:116-157 | where the job of a held claim ends, for every handler outcome; a stale claim changes nothing |
| JobQueue.JobTable.RunDue | backend/app/domain/jobs.py:160-166 | after one pass every claimed job is done, failed or queued for a retry, with one more attempt; no other row changed |
| RunProtocol.ExecKeepsInv | backend/app/agent/runtime.py:241-302 | over every interleaving a run carries a lease exactly while it runs, worker and run agree on it, and nobody claims a run of a mission it has seen cancelled |
| RunProtocol.StaleWorkerIsPowerless | backend/app/agent/runtime.py:260-275 | once its lease is superseded, cancelled or finished, no checkpoint, heartbeat or finish of a worker changes the run, at any later point |
| RunProtocol.LostTokenStaysLost | backend/app/agent/runtime.py:241-257 | a lost lease never comes back |
| RunProtocol.ClaimSupersedes | backend/app/agent/runtime.py:246-254 | a claim succeeds exactly on a claimable run with a free lease; it then takes the lease from every other worker and raises the fencing number by one, otherwise no run changes |
| RunProtocol.CancelFreezesRuns | backend/app/agent/runtime.py:278-302 | cancelling a mission cancels its claimable runs and freezes checkpoint, steps and result of all its runs for good |
| RunProtocol.FencingCountsClaims | backend/app/agent/runtime.py:246-252 | the fencing number of a run counts the claims that succeeded |
| RunProtocol.ClosedRunIsFrozen | backend/app/agent/runtime.py:241-302 | a cancelled, succeeded, failed or asking run never changes again: status, checkpoint, steps, result |
| RunProtocol.LeavingTouchesNoTable | backend/app/agent/runtime.py:241-275 | a worker that crashes and a session that leaves take nothing with them but themselves |
| MissionProtocol.SafelyCancelledStays | backend/app/agent/runtime.py:278-302 | a cancelled mission stays cancelled in every continuation when no session or finisher is in a position to undo it |
| MissionProtocol.CancellationHoldsExactlyWhenQuiet | backend/app/agent/runtime.py:721-749 | a cancellation holds in every continuation if and only if, when it is written, no finisher is about to overwrite the status it loaded, nobody is about to run the mission inline, and no resume, reply or revocation that loaded it earlier is in flight |
| MissionProtocol.InlineStartUndoesCancellation | backend/app/agent/runtime.py:820-832 | an instance: a mission cancelled between its creation and its inline run ends as paused |
| MissionProtocol.SettledStays | backend/app/agent/runtime.py:721-749 | a finished mission that nobody is in a position to change stays exactly as it is in every continuation |
| MissionProtocol.FinishedHoldsExactlyWhenSettled | backend/app/agent/runtime.py:727-749 | a succeeded or failed mission keeps status and result in every continuation if and only if no session that loaded it unfinished, no job of an open run and no live worker of its runs can still write another value |
| MissionProtocol.SucceededMissionCanBeOverwritten | backend/app/agent/runtime.py:727-740 | an instance: a superseded worker overwrites the mission of a succeeded run |
| MissionProtocol.StrandedExactlyWhenAbandoned | backend/app/agent/runtime.py:797-817 | nothing but a cancellation will ever change an open run again if and only if its job is over, nobody is about to claim it and no live worker holds its lease |
| MissionProtocol.SkippedJobStrandsARun | backend/app/agent/runtime.py:807-809 | an instance: a skipped second execution ends the job and the run stays running |
| MissionProtocol.LastCheckpointIsKept | backend/app/agent/runtime.py:663-671 | over every run of the system a run carries the checkpoint and the steps last written under its lease, so a later claim finds them |
| RunStore.Store.StartRun | backend/app/agent/runtime.py:227-238 | queues a run whatever the mission is now, and sets it running when the status the caller loaded says so |
| RunStore.Store.Resume | backend/app/agent/runtime.py:834-841 | resumes unless the loaded status is terminal |
| RunStore.Store.Reply | backend/app/services/external_clients.py:541-560 | reopens an unfinished mission, to be run inline next |
| RunStore.Store.Pause | backend/app/services/external_clients.py:205-214 | pauses the missions found unfinished |
| RunStore.Store.CancelMission | backend/app/agent/runtime.py:278-302 | missions loaded as terminal are left alone; otherwise the mission is cancelled and none of its runs stays claimable |
| RunStore.Store.StartInlineRun | backend/app/agent/runtime.py:820-823 | starts the inline run without looking at the mission |
| RunStore.Store.LoadForJob | backend/app/agent/runtime.py:801-806 | skips a cancelled mission and a run that is over |
| RunStore.Store.ClaimLease | backend/app/agent/runtime.py:241-257 | claims exactly a claimable run with a free or expired lease |
| RunStore.Store.CheckStatus | backend/app/agent/runtime.py:554-555 | goes on exactly while the mission is not cancelled |
| RunStore.Store.Fenced | backend/app/agent/runtime.py:260-271 | writes the run exactly while the lease holds |
| RunStore.Store.SaveCheckpoint | backend/app/agent/runtime.py:663-676 | under the lease exactly checkpoint and steps become the given ones and the lease ends 120 seconds from now; without it nothing is written and the worker stops |
| RunStore.Store.Heartbeat | backend/app/agent/runtime.py:274-275 | extends the lease exactly while it holds |
| RunStore.Store.WriteRun | backend/app/agent/runtime.py:724-729 | the first transaction of a finisher: effective exactly under the lease |
| RunStore.Store.WriteMission | backend/app/agent/runtime.py:729-748 | the second transaction: which finishers write the mission, and what |
| RunStore.Store.Finish | backend/app/agent/runtime.py:721-749 | what run and mission are after an undisturbed finish, with and without the lease |
| AgentLoop.RunTools | backend/app/agent/runtime.py:609-660 | counters equal the failures since the last success of each identical call; the turn stops exactly on a control stop or a fourth identical failure in a row; an alternative is asked for exactly at the third failure in a row, once per call |
| AgentLoop.TrailingIsLastRun | backend/app/agent/runtime.py:628-657 | the failures counted for a call are the longest run of errors at the end of its results |
| AgentLoop.ContinuingKeepsThree | backend/app/agent/runtime.py:631-657 | as long as nothing stops the run no identical call has failed more than three times in a row |
| AgentLoop.StepKeepsConversationValid | backend/app/agent/runtime.py:600-662 | appending an assistant turn and its results keeps the conversation valid for the model |
| AgentLoop.CompleteStep | backend/app/agent/runtime.py:592-681 | a completed step appends the assistant turn and one user turn with all results; under the lease it stores steps, trimmed messages (40), counters and alternatives, without it nothing; it ends the run exactly on a lost lease or when the tools stop it |
| AgentLoop.Round | backend/app/agent/runtime.py:553-681 | each way a round can end, exactly: cancelled, paused, budget, model unavailable, refusal, clean end, lost lease or tools; budget, counters and conversation are kept |
| AgentLoop.ExecuteRun | backend/app/agent/runtime.py:518-690 | for any model, tools and other workers: at most max_steps - steps_used model calls, stored steps within the budget, a checkpoint that can be resumed, no step after one that stops |
| Trim.TrimMessages | backend/app/agent/runtime.py:112-133 | the two loops compute the trimmed conversation |
| Trim.TrimKeepsContextAndSuffix | backend/app/agent/runtime.py:115-133 | the result is the leading user messages without tool results plus a suffix that starts at a turn and fits (or has at most two messages); no earlier turn boundary would have fitted |
| Trim.TrimKeepsValid | backend/app/agent/runtime.py:113-118 | a valid conversation stays valid: no tool call and no tool result is orphaned |
| Trim.TrimmedLength | backend/app/agent/runtime.py:129-133 | the result has at most max(keep, opening + 2) messages |
| Trim.TrimIsIdempotent | backend/app/agent/runtime.py:112-133 | trimming twice is trimming once |
| Sweep.MissionTable.ResumeDue | backend/app/agent/runtime.py:856-869 | the loop resumes exactly the first `cap` rows of every role (running, no next check) and leaves all other missions as they are |
| Sweep.StartedIsCapped | backend/app/agent/runtime.py:861-868 | of every role a pass starts as many missions as it found, up to the cap |
| Sweep.StartedInDueOrder | backend/app/agent/runtime.py:857-860 | a pass starts only waiting missions whose next check has come, the earliest first and of equal ones the older |
| Sweep.ManagersShareOneCap | backend/app/agent/runtime.py:862-866 | missions without a role share the cap of the manager |
| Sweep.FewAreAllSelected | backend/app/agent/runtime.py:856-859 | while at most 50 missions are due, a pass looks at all of them |
| Sweep.StartedIsResumed | backend/app/agent/runtime.py:862-868 | the missions a pass starts are exactly those it resumes |
| Sweep.UnresumedStaysDue | backend/app/agent/runtime.py:846-848 | a due mission stays due exactly when the pass does not resume it |
| Sweep.PassMakesProgress | backend/app/agent/runtime.py:854-869 | a pass that passes a due mission over takes one that was ahead of it |
| Sweep.EveryMissionIsResumed | backend/app/agent/runtime.py:842-869 | no mission is starved: it waits for fewer passes than there are missions due no later than itself |
| Updates.Feed.AddUpdate | backend/app/agent/runtime.py:218-224 | the new update gets the next number and at most 1000 characters of text; of 300 kept rows the oldest goes |
| Updates.Feed.UpdatesSince | backend/app/agent/runtime.py:323-324 | the loop returns exactly the kept rows beyond the cursor |
| Updates.PollIsComplete | backend/app/agent/runtime.py:223-324 | a poll returns everything since the cursor exactly when at most 300 updates came since |
| Updates.PollerSeesEverything | backend/app/agent/runtime.py:218-324 | a poller sees every update exactly once and in order exactly when it never falls more than 300 behind |
| CommandProtocol.OneExecutionPerRequest | backend/app/domain/commands.py:207-278 | over every interleaving the store is the fold of the committed executions, at most one per actor and request id |
| CommandProtocol.LoggedExactlyWhenExecuted | backend/app/domain/commands.py:261-268 | a request was executed exactly when its log row says so, with the logged command and payload |
| CommandProtocol.LogSaysWhatWasDone | backend/app/domain/commands.py:236-265 | over every run a row logged ok belongs to an allowed execution and carries what its handler returned, a needs-review row carries its approval, and nothing was executed for a blocked one |
| CommandProtocol.LogIsAppendOnly | backend/app/domain/commands.py:261-265 | log rows never change |
| CommandProtocol.EveryReplyIsTheLoggedOne | backend/app/domain/commands.py:216-278 | every reply that does not raise carries the logged status, data, changed list and approval of its request |
| CommandProtocol.RepliesOfOneRequestAgree | backend/app/domain/commands.py:216-278 | two replies to one request agree in everything but the decision |
| CommandProtocol.SequentialReuse | backend/app/domain/commands.py:217-225 | a logged request id is replayed exactly for the same command and payload and refused otherwise, without a change to the store |
| CommandProtocol.MismatchedExactlyWhenOvertaken | backend/app/domain/commands.py:216-278 | a dispatch is answered with the result of another command or payload if and only if that one was logged under its request id between its lookup and its commit; it then executes nothing |
| CommandProtocol.OverlappingReuseIsNotRefused | backend/app/domain/commands.py:269-278 | an instance: two overlapping dispatches where the loser gets the result of another command |
| CommandProtocol.PermissionUseIsConserved | backend/app/domain/commands.py:317-327 | used amount and count are exactly those of the committed executions, and used plus reserved never exceeds the cumulative limit |
| CommandProtocol.GrantedLimitStays | backend/app/domain/commands.py:317-327 | the cumulative limit a permission was granted with never changes |
| CommandStore.Session.ReservePermission | backend/app/domain/commands.py:317-327 | denies exactly when used, reserved and asked amount exceed the cumulative limit; otherwise adds one use and the amount |
| CommandStore.Session.Log | backend/app/domain/commands.py:261-278 | commits pending changes with the log row, or rolls back and returns the stored result |
| CommandStore.Session.Conclude | backend/app/domain/commands.py:236-258 | in every case: the limit reached, a handler that raised, a request logged meanwhile, another conflict, or a commit whose reply and log row say ok with the data and changed list of the handler, needs_review with the approval, or blocked |
| CommandStore.Session.Dispatch | backend/app/domain/commands.py:207-258 | a logged request is replayed or refused without a change; any other one concludes as above |
| Policy.EffectivePerms | backend/app/domain/policy.py:66-73 | overrides change known keys only, and the ten owner-locked ones for the owner only |
| Policy.CheckRecordScope | backend/app/domain/policy.py:184-217 | the loops return the reasons of all records, pass by pass |
| Policy.NoReasonsExactlyInScope | backend/app/domain/policy.py:184-217 | there is no reason exactly when every record is in scope |
| Policy.ReasonsAreExact | backend/app/domain/policy.py:191-217 | each record is named by exactly the rules it breaks: client vehicles, assignment, personal account |
| Policy.TaskScopeIsOwnership | backend/app/domain/commands.py:146-154 | a task may be written to by limited people and agents exactly when it is theirs, and by everybody else |
| Policy.VisibleVehicleIds | backend/app/domain/access.py:14-26 | only clients with listed vehicles and limited people or agents are restricted: the one to exactly the vehicles listed, the other to exactly those with a task owned by their user id |
| Policy.WriteScopeIsReadScope | backend/app/domain/commands.py:146-154 | a vehicle may be written to exactly when it is visible, except for limited actors without a user id and vehicles of unowned tasks (both directions) |
| Policy.ThreadScopeIsReadScope | backend/app/domain/policy.py:188-217 | a thread may be written to exactly when it is unlinked or linked to a visible vehicle, and not on a hidden personal account |
| Decisions.CoversExactlyWithinLimits | backend/app/domain/policy.py:126-174 | a standing permission covers a request exactly when each of its limits is met |
| Decisions.FindStandingPermission | backend/app/domain/policy.py:121-176 | the loop returns the first covering permission and the refusals before it |
| Decisions.RefusalNamesAFailedLimit | backend/app/domain/policy.py:131-174 | the limit a refusal names is one that the request does not meet |
| Decisions.RefusalsAreThoseOfTheRows | backend/app/domain/policy.py:125-176 | the reasons collected are exactly those of the rows that refuse |
| Decisions.NamesTheFirstCovering | backend/app/domain/policy.py:258-260 | a decision names a permission exactly when it rests on one, and then the first row within all its limits |
| Decisions.PausedExactlyByItsSwitches | backend/app/domain/policy.py:226-229 | a command is paused exactly by the global switch and the switch of its workflow, or of itself when it has none |
| Decisions.PermissionByKind | backend/app/domain/policy.py:93-106 | who has a permission, for every kind of actor |
| Decisions.OrdinaryWorkIsDecided | backend/app/domain/policy.py:226-241 | a read or internal command is allowed exactly when unpaused (or a read, or a person), in scope and permitted, and blocked otherwise: never sent to review |
| Decisions.OwnerActionsAreDecided | backend/app/domain/policy.py:243-248 | an owner-only command is allowed to the owner in person, reviewed for the agent of the owner, blocked for everybody else |
| Decisions.ConsequentialWorkIsDecided | backend/app/domain/policy.py:250-264 | a consequential command is allowed, reviewed or blocked exactly by its approval, or without one by whether some standing permission is within all its limits |
| Decisions.RefusalsSayWhy | backend/app/domain/policy.py:226-238 | whoever is blocked before the decision proper is told the first thing that is missing |
| Decisions.FewerGrantsNeverDecideBetter | backend/app/domain/policy.py:220-264 | taking away permissions or client scopes never raises the outcome, for any command, payload and standing permissions |
| Decisions.AgentNeverExceedsItsPerson | backend/app/domain/policy.py:220-264 | an agent acting for a person never gets a higher outcome than the person |
| Decisions.ConsequentialIsBacked | backend/app/domain/policy.py:250-264 | a consequential command is allowed exactly when in scope, permitted, unpaused and backed by an executable approval or a permission within its limits |
| Decisions.MissionAgentNeverExceedsItsPerson | backend/app/agent/runtime.py:146-174 | a mission's agent has exactly the permissions its person has today and had at creation, and never decides better than the person |
| Decisions.ClientMissionNeverExceedsItsClient | backend/app/agent/runtime.py:154-164 | a client mission runs only for an active client, with exactly the permissions and scopes it has today and had at creation, and never decides better than the client |
| Decisions.MissionGainsNothingExactly | backend/app/agent/runtime.py:146-174 | a mission never decides better than on the day it was created if and only if the person row is there and the person, if active, has not become owner and has not lost the limit on records |
| Decisions.MissionWithoutPersonActsAsSystem | backend/app/agent/runtime.py:166-168 | without its person's row a mission acts as the system |
| Outbox.Table.RunHandlers | backend/app/domain/events.py:54-68 | handlers run in registration order, each in its savepoint; the failed ones leave no trace and are reported |
| Outbox.Table.DispatchEvent | backend/app/domain/events.py:52-77 | the handlers run, then the event is marked: after errors it is due again after 30, 120, 600 or 1800 seconds unless this was the fifth attempt, otherwise processed; all other columns and events stay |
| Outbox.Table.DispatchPending | backend/app/domain/events.py:33-78 | one pass over the selected rows |
| Outbox.CommitsTheSucceeding | backend/app/domain/events.py:33-39 | what an event commits is the composition, in order, of exactly the handlers that returned |
| Outbox.ErrorsAreRaised | backend/app/domain/events.py:57-67 | the errors kept are exactly what the handlers that were called raised |
| Outbox.AtMostFiveDispatches | backend/app/domain/events.py:18-78 | over every run an event is dispatched at most five times and is processed by then |
| Outbox.NeverBeforeBackoff | backend/app/domain/events.py:29-72 | a retry never begins before 30, 120, 600 or 1800 seconds have passed since the first, second, third or later failed attempt |
| Outbox.RetriesAreSpread | backend/app/domain/events.py:19-30 | the k-th dispatch comes at least the sum of the earlier delays after the first, 2550 seconds for the fifth |
| Outbox.EveryDispatchRunsTheHandler | backend/app/domain/events.py:52-68 | every dispatch of an event runs every handler registered for it once |
| Outbox.HandlerRunsAtMostFiveTimes | backend/app/domain/events.py:18-78 | over every run no handler is run more than five times for an event |
| Outbox.RepeatedExactlyAfterErrors | backend/app/domain/events.py:69-77 | an event can be dispatched again, and its handlers run again, if and only if the dispatch reported errors and was not the fifth |
| Outbox.RunsOnceExactlyUnlessRetried | backend/app/domain/events.py:52-77 | from its arrival on a handler runs at most once for an event if and only if the first dispatch reports no error or no second one happens |
| Outbox.PassUsesAttempts | backend/app/domain/events.py:69-77 | the attempts left over all unprocessed events drop by at least the number dispatched |
| Outbox.DispatchesAreBounded | backend/app/domain/events.py:33-78 | over every run all dispatches are paid for by the attempts left at the start and five per arrival |
| Outbox.RetryRepeatsSucceededHandlers | backend/app/domain/events.py:54-56 | an instance: a counter handler runs twice because another handler raised once |
| Schema.Inliner.WalkNode | backend/app/agent/tools.py:81-119 | for every definition table: recursive and too deep references (beyond 8) become free objects, unknown ones open objects; every node keeps exactly the supported constraints, objects with properties are closed and require only declared fields, others are opened |
| SchemaMeaning.InliningAccepts | backend/app/agent/tools.py:81-119 | every instance without undeclared keys that the schema accepts is accepted by its inlined form, for every table, recursive ones included, in which only object definitions are degraded |
| SchemaMeaning.ObjectDefsDegradeToObjects | backend/app/agent/tools.py:86-94 | a table of object definitions is such a table |
| SchemaMeaning.StrictSchemaAccepts | backend/app/agent/tools.py:70-124 | the same for the whole transformation |
| SchemaMeaning.RecursiveArrayIsNotPreserved | backend/app/agent/tools.py:88-91 | a recursive definition that is not an object is not preserved |
| SchemaMeaning.FreeObjectKeepsReferences | backend/app/agent/tools.py:102-110 | an object without properties keeps references that nothing resolves |
| SchemaStrict.StrictExactlyWhenClosedEverywhere | backend/app/agent/tools.py:127-147 | a schema is strict exactly when every object at every position it visits is closed |
| SchemaStrict.StrictExactlyWhenDeclared | backend/app/agent/tools.py:81-147 | an inlined schema is strict if and only if every object it reaches declares properties and no reference is recursive, undefined or deeper than 8 |
| SchemaStrict.StrictToolSchema | backend/app/agent/tools.py:70-147 | a strict tool schema has no open object, no degraded reference and no reference left, and at every visited position each constraint is an unrestricted keyword or one of the ten supported formats |
| SchemaExact.InliningIsFaithful | backend/app/agent/tools.py:81-119 | what a strict inlined schema accepts, the original accepts as a closed schema, if the listed unsupported constraints hold |
| SchemaExact.StrictSchemaIsExact | backend/app/agent/tools.py:70-147 | a strict tool schema accepts exactly the instances the command's schema accepts without undeclared keys, where titles, defaults, the fourteen restrictions and unknown formats are taken to hold |
| MoneyMath.RoundingIsUnique | backend/app/core/money.py:12 | half-up rounding is the only nearest integer that goes away from zero on ties |
| MoneyMath.QuantizeIsNearest | backend/app/core/money.py:10-14 | yen and won, in either case of letters, are rounded to whole units and all other currencies to hundredths |
| MoneyMath.QuantizeKeepsSums | backend/app/core/money.py:38-44 | sums of quantized amounts are exact |
| MoneyMath.SplitBalanced | backend/app/core/money.py:65-77 | the code computes rounded shares with the remainder in the last part, nothing for no weights, an error for weights that sum to zero |
| MoneyMath.SplitSumsToTotal | backend/app/core/money.py:66-77 | the parts sum exactly to the total |
| MoneyMath.SplitIsClose | backend/app/core/money.py:73-76 | every part but the last is within half a minor unit of its exact share, the last within (n - 1) / 2 |
| MoneyMath.SplitIsOdd | backend/app/core/money.py:65-77 | negating the total negates every part |
| MoneyMath.SplitIgnoresWeightScale | backend/app/core/money.py:70-77 | scaling all weights changes nothing |
| MoneyMath.LastPartCanBeNegative | backend/app/core/money.py:74-76 | an instance with a negative last part |
| MoneyMath.LastPartIsSafe | backend/app/core/money.py:73-76 | the last part is not negative when its exact share is at least (n - 1) / 2 minor units |
| MoneyMath.LastPartReachesTheBound | backend/app/core/money.py:73-76 | for every number of parts there is a split whose last part lies exactly (n - 1) / 2 below its exact share, and is negative when that share is smaller |
| MoneyText.PrintedTextParses | backend/app/adapters/square.py:64-73 | the printed text of any number of minor units parses as exactly that decimal |
| MoneyText.PrintedShape | backend/app/adapters/square.py:68-73 | a minus sign exactly for negative amounts, a whole number without leading zeros, and outside yen and won a point and two digits |
| MoneyText.PrintMoneyCurrency | backend/app/adapters/square.py:64-67 | there is a text exactly when there is an amount; the currency is the given one in capitals, or US dollars |
| MoneyText.CommasDoNotMatter | backend/app/core/money.py:24 | thousands separators do not change the amount, wherever they stand |
| MoneyText.MoneyRoundTrip | backend/app/core/money.py:10-26 | print, parse and quantize return the same number of minor units, for every sign and currency |
| Calendar.ThirtyTwoDaysLater | backend/app/core/time.py:72-73 | the first of a month plus 32 days, with the day set to 1, is the first of the next month |
| Calendar.MonthPeriod | backend/app/core/time.py:71-74 | a month period is the whole local month of its reference instant and contains it; it fails exactly where the calendar ends |
| Calendar.MonthPeriodIsStable | backend/app/core/time.py:71-74 | every instant of a month period has that period |
| Calendar.MonthPeriodsPartitionTime | backend/app/core/time.py:71-74 | two month periods are equal or disjoint |
| Calendar.MonthPeriodsAbut | backend/app/core/time.py:71-74 | where a month period ends the next one starts |
| Calendar.MidnightRoundTrip | backend/app/core/time.py:71-74 | local midnight is seven o'clock UTC and is read back as that midnight |
| Calendar.RollingPeriod | backend/app/core/time.py:75-78 | 7d and 30d span exactly that many days and contain the reference; they fail exactly where the calendar ends |
| Calendar.CustomPeriod | backend/app/core/time.py:79-82 | a custom period spans end - start + 1 days; it fails exactly when it ends on the last day of the calendar |

## Left out

- Handler bodies, business services, provider adapters, the model and its prompts: arbitrary results here.
- Of a checkpoint the loop keeps the messages, the failure counters and the alternatives asked for; the system prompt, the
  approvals and the list of changes are not modelled.
- Settings: the lease of a job is its default of 120 seconds (backend/app/core/config.py:42).
- SQLAlchemy sessions and Postgres: transactions are atomic steps, unique keys and row locks hold; the one session
  effect kept is that a finisher's session still shows the mission as it loaded it.
- `dispatch(..., commit=False)` and nested commands inside a handler: part of the outer handler's writes.
- Activity entries, and how an approval is superseded: part of what a needs-review dispatch writes. Events that a
  handler emits arrive in the outbox as steps of their own.
- Ordering and LIMIT of the outbox SELECT: a pass may take any distinct due events.
- Outbox.Table.DispatchPending: says nothing about which due event comes first, because nothing proved depends on it.
- Money: amounts are exact rationals; Decimal's 28 digits, floats, NaN and infinities (an error here), non-ASCII
  digits and blanks are not modelled. Permission amounts are whole minor units.
- MoneyText.MoneyRoundTrip: `upper()` on ASCII currency codes only.
- Calendar: America/Phoenix as a fixed seven hours behind UTC (no zone table), other zones not at all; wall-clock
  times of the years 1 to 9999.
- Schema: `oneOf` is walked but not given a meaning, `items` is a schema (not a list), keywords without schemas are
  judged by a parameter.
- SchemaMeaning.InliningAccepts: the conditions `InFragment` and `DegradesObjectsOnly` are sufficient; that every schema
  outside them is changed is not claimed.
- SchemaMeaning.StrictSchemaAccepts: under the same conditions.
- Role default and client scope tables (parameters), `convert`, `sanitize_money`, `_expand_records` and the way
  threads are resolved to vehicles.
- History kept for the statements and not in the tables: the key a job was enqueued under, its requeue counts, the
  executions committed by dispatches, the first dispatch of an event.
- The queue and the runtime are two machines: in the second one the mission.run job of a run is only live or over, and may
  end at any time.
- MissionProtocol.StrandedExactlyWhenAbandoned: for runs of missions that are not cancelled.
- WebAuthn, encryption, signatures, migrations, the web frontend.
