# A verified model of the game account service

The service drives browser-game accounts for their owners: it collects idle income, previews on a schedule, keeps
policies and enrolled accounts, and sends mutating requests to a game server that may answer late, wrongly or not at
all. This project models the parts whose correctness depends on many steps at once and proves what they guarantee over
every history. `dafny verify dfyconfig.toml` checks everything.

| files | what they model |
|---|---|
| `Prelude`, `Text`, `StableSort` | options, Python's string order, Python's stable sort |
| `CanonicalJson`, `CanonicalJsonProofs`, `CanonicalReader` | the canonical JSON printer, why it is injective, and a reader by the standards that reads it back |
| `Projection`, `ProjectionProofs` | fingerprint projections with keyed arrays |
| `IdlePlanner`, `IdleClaims`, `IdleExecute` | the idle decision, the claim transactions, one executor's call |
| `IdleProtocol`, `IdleInvariants`, `IdleTruth`, `IdleIsolation`, `IdleTheorems`, `IdleCounterexamples`, `IdleOutcomes` | the idle execution protocol as a state machine, its invariants and theorems |
| `GameClient`, `Mutation` | the client's retries inside `mutate`'s conflict loop |
| `SchedulerStore`, `SchedulerJobs`, `SchedulerRuns`, `SchedulerTheorems`, `SchedulerStuck`, `SchedulerTick`, `LeaderLease` | the idle-preview scheduler |
| `AuthWindow`, `Accounts`, `AccountHistory`, `AuthHistory` | identity, sessions, authentication failures and removal |
| `PolicyStore` | the policy compare-and-swap |
| `BossRanking`, `BossOptimizer`, `BossTheorems`, `BossFields` | the truncated boss search |

## How the world is modelled

- A database transaction is one atomic step; `with_for_update` and the account lock are what makes it one. Advisory
  locks are "who holds it", a lost connection is a step that takes the lock away. Rows are maps or sequences; an answer
  of the database whose order or choice is open (`order_by` with ties, `skip_locked`) is a parameter of the method that
  must fit the query, so that the results hold for every such answer.
- The game, cancellation and clocks are scripts or step parameters: nothing is assumed about their values unless a
  lemma says so. Exceptions are result datatypes. `uuid4` values are drawn from a growing supply.
- SHA-256 is taken as injective: statements about fingerprints are statements about the bytes that are hashed.
- Methods are written as the source writes them and proved against functions or relations; the histories are then
  studied on those functions. Beside that, every operation has a promise in terms of what a caller can see alone: the
  columns of the rows, the answers of the game, the script of the world. The promises (`DirectPromise`, `Kept`,
  `UpdatePromise`, `VisitPromise` and so on) name none of the functions that the methods are proved against.

### Idle execution

`IdleProtocol` is one account's slice: the guard, the account lock, the plan rows and the game of that account. Any
number of executors run `execute` calls; a step is one transaction, one read, one message sent, delivered or dropped, a
crash, or the loss of the guard's or the lock's connection. Messages may be delivered after their sender has given up.
Assumed: capacity is constant, and accumulated seconds fall only when some collect is applied (an own one or a foreign
one). Plans come from `IdlePlanner.draft`. `mutate` may fail a plan that is being executed, at any moment at which nobody
holds the account lock, and this is a step of the protocol; what is assumed is that plans which are still open are not
also handed to `mutate`.

The account lock belongs to a transaction: leaving `locked` commits it, and a commit over a lost connection raises. So a
call that has lost the lock can still send, but it never writes a verdict; its plan stays `executing`.

What the terminal states then mean: `failed` is always true (no collect was ever sent), unless `mutate` wrote it. Then
what had been sent stays sent, and `DeclinedThoughCollected` shows that it may be applied. `executed` always has an
applied collect behind it, inside the interval between the two reads that decided. That this collect is the plan's *own*
send holds exactly if it reached the game while its sender was still deciding under the account lock
(`ExecutedMeansCollected`), whatever went wrong elsewhere or earlier. It can fail in three ways, each reached by a run in
`IdleCounterexamples`: a collect from elsewhere, a request that arrives after its sender has given up, and a request
whose sender still waits but has lost its connections. In each of them a plan is recorded as `executed` by its direct
call although its own request was dropped. All three end in the same branch, the reconciliation after a fault: if the
game answers positively only what it has applied, an `executed` that rests on an answer is the plan's own, whatever else
happens (`AnsweredMeansOwn`).

Likewise a send under the account lock is never stale, in any history (`NoStalePlanIsSent`); `StaleExactlyIfSaved` says
when a send is stale, and `StaleSendIsReached` shows that a call that has lost the lock can make one.

### `mutate`

Every invocation of the caller's operation makes one mutating request through the client model, whatever the server
answers and whatever client version other accounts adopt in the meantime: the version is shared, and a script says what
happens to it during each exchange. The model also shows what `mutate` does to a plan that some executor is running: it is marked `failed`
(the last postcondition of `Mutate`), because `finish` accepts a row that is `executing`. What that does to an executor is part of the idle protocol.

### Scheduler

Slots are whole seconds, times are microseconds. The history theorems hold from an empty database, where each account
has at most one idle-preview job, and there no job is ever stuck. `SchedulerStuck` drops that: from any table of jobs, an
enabled job is never claimed again exactly if a completed run of its account sits in the slot that it is planned for, and
`SecondJobMayStick` runs from two twin jobs to such a state. `finish_run` does not look at the lease owner, and the
theorems do not need it to: stale, repeated and missing finishes are all allowed steps.
`ensure_jobs` is idempotent exactly if no two jobs share the place of an eligible account's oldest: with such a tie the
database may answer in either order, and a second call may enable the other job.

### Accounts

A pause with the reason "removed" or "removing" (surrounding white space is stripped) is accepted by the source.
`PauseKeepsRemovalOkIff` says exactly when such a pause keeps the removal guarantee, and `PausedAsRemoved` shows the
consequence: the account keeps its secrets and the removal that would clear them returns at once. However the marker was
set, it stays for ever and lets nobody in (`RemovalIsForEver`, `NoHandleOnceMarked`); that a marked account is disabled
and a removed one without secrets holds for every account that nobody has paused with a reserved reason
(`RemovalIsProper`).

The repository's design document promises that three authentication failures in a row within one hour pause the account
(docs/superpowers/specs/2026-08-17-placegame-mcp-core-design.md:193). The code counts in a window that opens with the
first failure after the last one has closed, so that the promise can fail. `ThreeFailuresPauseIff` says exactly when it
holds, from the window before the three failures, and `ThreeFailuresPauseTheAccountIff` says it of the account's row over
all interleavings.

## Model

| member | source | states |
|---|---|---|
| `IdleTheorems.AtMostOneSend` | src/placegame/application/idle.py:152-191 | In every reachable world: at most one send per plan, no recovery claim ever sends, and a plan that is still pending or confirmed has attempt count 0 and was never sent |
| `IdleTheorems.NoWayBack` | src/placegame/application/idle.py:163-205 | Over every run a claimed plan never becomes pending or confirmed again, and a terminal row is never rewritten |
| `IdleTheorems.FailedMeansNeverSent` | src/placegame/application/idle.py:407-439 | If a plan is `failed` in some world, and not by `mutate`, then in that and every later world no collect was sent for it |
| `IdleTheorems.DeclinedWasSent` | src/placegame/accounts/service.py:796-810 | A plan that `mutate` fails while it is being executed: what had been sent for it stays sent; something is sent for it later only if a call had passed its check and, as the account lock was free, had lost that lock |
| `IdleTheorems.ExecutedMeansCollected` | src/placegame/application/idle.py:407-501 | An `executed` plan was written exactly once, with a collect applied between the reads that decided it; for a recovery, after the plan was drafted; for the claim that sent, its own send had been applied if and only if one of these collects reached the game while its sender was still deciding under the account lock, and it is exactly that collect |
| `IdleTheorems.OwnUnlessDisturbed` | src/placegame/application/idle.py:421-443 | If every collect between the reads of an `executed` direct call was such a one, its own send was applied |
| `IdleTheorems.AnsweredMeansOwn` | src/placegame/application/idle.py:421-430 | An `executed` that was written on a positive answer to a request which the game had applied by then is the plan's own, in every history; so only a reconciliation after a fault can be credited with a collect that is not |
| `IdleTheorems.NoStalePlanIsSent` | src/placegame/application/idle.py:408-418 | In every history: a send whose sender still holds the account lock names the newest policy version, so after a policy save no such send belongs to an older plan |
| `IdleTheorems.StaleExactlyIfSaved` | src/placegame/application/idle.py:408-421 | A send is of an older policy version if and only if a policy was saved after its call had read its own, and then the call no longer holds the lock |
| `IdleTheorems.GuardedClaimsAreSafe` | src/placegame/application/idle.py:108-129 | While the guard's connection is never lost, calls run one at a time and the terminal write of a claim always succeeds, unless `mutate` has failed the plan |
| `IdleCounterexamples.LateDeliveryIsCredited` | src/placegame/application/idle.py:421-443 | A reachable world, no lock lost and no foreign collect, in which a plan is `executed` by its direct call though only an earlier call's late request was applied |
| `IdleCounterexamples.ForeignCollectIsCredited` | src/placegame/application/idle.py:421-443 | The same with a collect from elsewhere as the only one |
| `IdleCounterexamples.LostLockIsCredited` | src/placegame/application/idle.py:421-443 | The same with the request of a call that still waits but has lost guard and lock |
| `IdleCounterexamples.DeclinedThoughCollected` | src/placegame/accounts/service.py:796-810 | A reachable world in which a plan is `failed` by `mutate` though its collect, sent by a call that then died, was applied |
| `IdleCounterexamples.StaleSendIsReached` | src/placegame/application/idle.py:408-421 | A reachable world in which a call that has lost the account lock has sent a plan of an older policy version |
| `IdleOutcomes.CleanCollectIsExecuted` | src/placegame/application/idle.py:418-473 | From any reachable world: if the collect of an undisturbed call is applied, leaves less than the call had read and is answered positively, the plan becomes executed, not reconciled, with its own collect applied |
| `IdleOutcomes.CleanCollectIsReached` | src/placegame/application/idle.py:407-473 | And such a world is reached from an empty table |
| `IdleOutcomes.ReadsDecide` | src/placegame/application/idle.py:410-441 | What each read of a call decides in the protocol, in terms of what was read, the policy and the claim alone |
| `IdleOutcomes.RecoveryIsConcluded` | src/placegame/application/idle.py:475-491 | From any reachable world: a recovery that keeps lock and plan, under the plan's policy, executes the plan as reconciled if the policy would wait now, and otherwise asks for reconciliation |
| `IdleOutcomes.TakenOverAfterTwoMinutes` | src/placegame/application/idle.py:170-187 | In every history a plan in execution passes to another claim exactly if that is a recovery, 120 seconds or more after the claim that it is under |
| `IdleInvariants.SendInvStep` | src/placegame/application/idle.py:152-250 | Every step keeps: claims name plans claimed once, one direct claim per plan, at most one send per plan, no send before the claim has passed its checks, none for a plan that failed, unless `mutate` failed it |
| `IdleTruth.TruthStep` | src/placegame/application/idle.py:407-491 | Every step keeps the facts about reads: below an earlier reading only after an applied collect, plans drafted when collecting was due, every successful verdict with a collect behind it |
| `IdleIsolation.LockStep` | src/placegame/application/idle.py:408-418 | Every step keeps: whoever holds the lock is a call inside it whose policy is the newest, and every send under the lock names the current version |
| `IdleIsolation.GuardStep` | src/placegame/application/idle.py:108-129 | Every step keeps: while the guard is not lost there is one call, and its claim owns the executing row |
| `IdleIsolation.VerdictStep` | src/placegame/application/idle.py:224-250 | Every step keeps: one terminal write per plan, agreeing with the row's state; a terminal row without one was failed by `mutate` |
| `IdleIsolation.OwnStep` | src/placegame/application/idle.py:407-443 | Every step keeps: no collect was applied for a direct call's plan before its first read, and between its reads, under the lock, exactly those that were attended; the same of every verdict |
| `IdleIsolation.AttendedIsOwn` | src/placegame/application/idle.py:407-421 | While a direct call is deciding under the lock, a message is attended if and only if it was sent for that call's plan |
| `IdleClaims.IdleExecutionClaims.Claim` | src/placegame/application/idle.py:152-217 | Over the columns: granted exactly to a recovery of an executing plan whose lease is absent or over, or to the first claim of an open, unexpired, low-risk plan without confirmation and with the one idle decision; a grant writes owner, start, a lease of 120 seconds and, the first time, one more attempt; a refusal says which of the two errors it is and changes nothing; one audit event per grant |
| `IdleClaims.IdleExecutionClaims.Finish` | src/placegame/application/idle.py:224-250 | The terminal state, note and time are written exactly for an executing row under this owner, with one audit event; otherwise nothing changes |
| `IdleExecute.IdleExecuteUseCase.Execute` | src/placegame/application/idle.py:385-405 | Guard, claim and dispatch: at most one collect, only for a plan that this call claimed first; what it raises or returns says exactly in which state the plan is, and a granted plan ends as the promise of its call says; other plans are untouched |
| `IdleExecute.IdleExecuteUseCase.SendOnce` | src/placegame/application/idle.py:407-473 | `DirectPromise`, over reads, answer and policy: the collect is sent exactly if owner, version and fingerprint agree; a positive answer and a lower reading execute the plan; a negative answer or a reading that is not lower needs reconciliation; after a fault a readable state below minutes and ceiling is a reconciled execution and anything else needs reconciliation; a mismatch fails the plan; a lost commit leaves it |
| `IdleExecute.IdleExecuteUseCase.Recover` | src/placegame/application/idle.py:475-501 | `RecoveryPromise`: one read, never a collect; executed, without applying anything, exactly under the plan's policy version and below minutes and ceiling; else reconciliation |
| `IdlePlanner.FingerprintTells` | src/placegame/application/idle.py:253-273 | The hashed bytes of two idle fingerprints agree exactly when ceiling and decision agree |
| `CanonicalJsonProofs.CanonicalIdentity` | src/placegame/policy/plans.py:139-155 | Canonical bytes of two accepted values agree if and only if the values are type-strictly equal up to dictionary order |
| `CanonicalJsonProofs.PrintUnique` | src/placegame/policy/plans.py:154-155 | The printed text is self-delimiting: equal continuations mean equal values and equal rests, for escaped strings, adjacent integers and nested containers |
| `CanonicalJsonProofs.IntegerUnique` | src/placegame/policy/plans.py:154-155 | A printed integer followed by anything that does not start with a digit determines the integer and the rest |
| `CanonicalJsonProofs.StringUnique` | src/placegame/policy/plans.py:154-155 | A quoted, escaped string determines its content and what follows it |
| `CanonicalJsonProofs.Utf8Injective` | src/placegame/policy/plans.py:155 | UTF-8 encoding is injective |
| `CanonicalReader.CanonicalReadsBack` | src/placegame/policy/plans.py:138-155 | The canonical bytes of a value are a JSON text, by a reader of RFC 8259 and RFC 3629, that reads back as the value with the keys of every dictionary in ascending order |
| `CanonicalReader.CanonicalExactlyIf` | src/placegame/policy/plans.py:138-155 | There is a canonical form exactly if no value of a refused kind occurs at any depth |
| `ProjectionProofs.ProjectionIdempotent` | src/placegame/policy/plans.py:157-170 | Projecting a projection changes nothing |
| `ProjectionProofs.AlikeMeansProjectedEqual` | src/placegame/policy/plans.py:157-170 | Values equal up to dictionary order and the order of declared keyed arrays with distinct keys, at every depth, project to the same value |
| `ProjectionProofs.ProjectedEqualMeansAlike` | src/placegame/policy/plans.py:157-170 | And only those: equal projections mean equality up to exactly these orders |
| `ProjectionProofs.ReorderedArray` | src/placegame/policy/plans.py:162-169 | Any permutation of a declared keyed array with distinct keys projects to the same value |
| `ProjectionProofs.UndeclaredOrderKept` | src/placegame/policy/plans.py:162-169 | Undeclared arrays that differ at an index are told apart |
| `ProjectionProofs.ProjectionValid` | src/placegame/policy/plans.py:157-170 | A projection is again a well-formed, accepted and projectable value with distinct keys |
| `ProjectionProofs.FingerprintIdentity` | src/placegame/policy/plans.py:172-173 | Two fingerprints hash the same bytes if and only if family and projection agree up to the declared orders |
| `ProjectionProofs.FingerprintExactlyIf` | src/placegame/policy/plans.py:157-173 | There is a fingerprint exactly if at no depth a value of a refused kind occurs, nor an item of a declared array without a string in its field |
| `ProjectionProofs.ProjectionAscends` | src/placegame/policy/plans.py:157-170 | A projected array that is declared ascends in its field, and the keys of a projected dictionary ascend |
| `ProjectionProofs.DeclaredUnder` | src/placegame/policy/plans.py:162-164 | An array is declared under its whole path, or else under what follows the last dot of it |
| `ProjectionProofs.DeclaredAtTop` | src/placegame/policy/plans.py:162-164 | A path without a dot is its own last segment |
| `GameClient.HttpGameClient.Attempt` | src/placegame/game/client.py:419-447 | A mutation is one exchange, ambiguous after a transport failure or a server error; a read is at most three, repeated only after transport failures |
| `GameClient.GameClientVersion.Adopt` | src/placegame/game/client.py:78-108 | Takes over what has the form of a version and is news, and says whether it did |
| `GameClient.PartsAreVersion` | src/placegame/game/client.py:78-80 | Three numbers without superfluous zeros, dots between them, and a suffix of 1 to 32 permitted characters after a hyphen are a version |
| `GameClient.VersionHasParts` | src/placegame/game/client.py:78-80 | And every version has these parts |
| `GameClient.HttpGameClient.RequestOutcome` | src/placegame/game/client.py:401-417 | For reads and mutations: one attempt, or a second one if and only if the first ended in a 426 that names a version which is news when that is known; the version the retry starts with is the one named, and at any time it is what this client and, during its exchanges, the other accounts have adopted |
| `GameClient.MutationsAreRefusedFirst` | src/placegame/game/client.py:401-447 | Whatever other accounts adopt meanwhile, a mutation makes at most two exchanges; the first of two was refused, the last decides |
| `GameClient.MutationsSayWhatWasDone` | src/placegame/game/client.py:265-311 | A mutation without an answer or with a server error ends as ambiguous, and only such; it succeeds, conflicts or is refused exactly as status, error code and body of its last exchange say |
| `GameClient.ReadsEndWithTheirAnswer` | src/placegame/game/client.py:401-447 | A read makes at most six exchanges, and the last one decides |
| `GameClient.ReadsSayWhatCame` | src/placegame/game/client.py:265-311 | The same of a read, which is unavailable where a mutation is ambiguous |
| `Mutation.Operation.Invoke` | src/placegame/accounts/service.py:642-644 | In one invocation every exchange but the last was refused, and the last one too if it ends in a conflict; done, ambiguous, conflict, rejected, garbled or wrong version exactly as status, error code and body of the last exchange say |
| `Mutation.AccountService.Mutate` | src/placegame/accounts/service.py:579-832 | At most three invocations, all but the last in conflict; over all of them every HTTP exchange but the last was refused; plan, outcome and audit agree. `Kept`, over the plan's columns and the world's answers: the operation is invoked exactly as long as the account is admitted, the plan open, unexpired, confirmed where needed, of the current policy version and with the resolved fingerprint, and conflicts go on; a closed gate gives its exception and plan state; success exactly if the operation was done, or may have been and was verified, and `bootstrap` and the verifier confirm it; every other ending gives its exception, cancellation or rollback and the plan's state; and the last invocation is what its last exchange says. A plan being executed elsewhere is marked failed |
| `Mutation.AccountService.Conclude` | src/placegame/accounts/service.py:645-792 | Every way in which the last round can end leaves plan, audit and outcome in agreement |
| `Mutation.AccountService.Handle` | src/placegame/accounts/service.py:793-826 | The failure path: terminal state, one audit event and a public exception |
| `Mutation.AccountService.FinishRow` | src/placegame/policy/plans.py:326-343 | Writes a terminal state if and only if the status is terminal and the row exists and is not terminal; otherwise nothing changes |
| `SchedulerStore.PostgresIdlePreviewStore.AcquireLease` | src/placegame/scheduler.py:133-160 | Granted exactly if owner or expiry is absent, the owner is the worker, or the expiry is at or before now; the row then names the worker and its new expiry; a refusal changes nothing |
| `SchedulerStore.PostgresIdlePreviewStore.ReleaseLease` | src/placegame/scheduler.py:345-356 | Clears the row if and only if the worker owns it |
| `SchedulerStore.PostgresIdlePreviewStore.EnsureJobs` | src/placegame/scheduler.py:162-221 | The new table, row by row: the first row of each known account is kept and enabled or disabled, its duplicates are disabled, eligible accounts without a row get one, the rest is untouched |
| `SchedulerStore.PostgresIdlePreviewStore.DisableDuplicates` | src/placegame/scheduler.py:185-191 | After the first pass exactly the first row of each account is remembered, and exactly the others are disabled |
| `SchedulerStore.PostgresIdlePreviewStore.ClaimSlot` | src/placegame/scheduler.py:265-318 | Over the rows: a whole second without a run of the account gets one, with all its columns; an uncompleted run whose lease is absent or over is retaken with one more attempt; otherwise nothing changes |
| `SchedulerStore.PostgresIdlePreviewStore.ClaimDue` | src/placegame/scheduler.py:223-263 | Claims the due rows one after the other, collecting the claims that are granted |
| `SchedulerStore.PostgresIdlePreviewStore.FinishRun` | src/placegame/scheduler.py:320-343 | Over the rows: a run that is not completed gets result and time and loses owner and lease, and its job the next time; otherwise nothing changes |
| `SchedulerJobs.OneEnabledJob` | src/placegame/scheduler.py:185-221 | From any table, each eligible account ends with exactly one enabled job, the oldest if there was any, with a planned time |
| `SchedulerJobs.JobsOfAccount` | src/placegame/scheduler.py:162-221 | The jobs of a listed account after the call, column by column: an oldest one is kept, updated and enabled if the account is enabled and not paused and disabled if not; the others are disabled; an account without jobs gets exactly one, due at once, if it is enabled and not paused |
| `SchedulerJobs.NoneForIneligible` | src/placegame/scheduler.py:192-197 | Known accounts that are not eligible end without an enabled job |
| `SchedulerJobs.OthersUntouched` | src/placegame/scheduler.py:162-221 | Unknown accounts and other kinds are untouched, no row disappears, and no planned time that was set changes |
| `SchedulerJobs.IdempotentExactlyIf` | src/placegame/scheduler.py:162-221 | A second call changes nothing, at any time and for every answer of the database, if and only if no two jobs share the place of an eligible account's oldest |
| `SchedulerJobs.Idempotent` | src/placegame/scheduler.py:162-221 | One half: with unique oldest jobs the second call changes nothing |
| `SchedulerJobs.TiedJobTakesOver` | src/placegame/scheduler.py:178-191 | The other half: where two jobs tie, some answer makes the second call change the table, at any later time |
| `SchedulerJobs.EqualAgesMaySwap` | src/placegame/scheduler.py:178-191 | With equal creation times a second call may enable the other job |
| `SchedulerTheorems.PlannedSlotIsOpen` | src/placegame/scheduler.py:265-343 | In every history a job's completed runs lie at least the shortest interval below its planned slot, and an uncompleted run is in exactly that slot: no job is ever stuck |
| `SchedulerTheorems.ClaimDueIsExact` | src/placegame/scheduler.py:223-318 | A tick's claims are exactly the enabled idle-preview jobs of admitted accounts that are unlocked and due and whose account has no uncompleted run under a running lease, each with its own slot, owner, lease and attempt number |
| `SchedulerTheorems.AbandonedRunIsRetaken` | src/placegame/scheduler.py:294-311 | An uncompleted run whose lease is over is claimed again by the tick, as the same run with one more attempt |
| `SchedulerTheorems.NextRunIsLater` | src/placegame/scheduler.py:320-343 | The finish that completes a run plans the next at least one interval after the claimed slot, in a new slot, even by another worker's clock |
| `SchedulerTheorems.RunsOnlyGrow` | src/placegame/scheduler.py:285-343 | Over every history each account and slot has at most one run, attempts only grow, and a completed run never changes |
| `SchedulerTheorems.RateIsBounded` | src/placegame/scheduler.py:320-343 | In any window of T seconds an account has at most floor(T / shortest interval) + 1 runs |
| `SchedulerStuck.StuckExactlyIf` | src/placegame/scheduler.py:223-343 | From any table, with any number of jobs per account: no later tick ever claims an enabled, planned job if and only if a completed run of its account is in the slot that it is planned for |
| `SchedulerStuck.GrantedExactlyIfFree` | src/placegame/scheduler.py:236-318 | In any table, with any number of due jobs per account: a tick grants a due job if and only if its slot has neither a completed run nor an unexpired lease, and no job of its account that comes before it is planned for the same slot |
| `SchedulerStuck.StuckForEver` | src/placegame/scheduler.py:265-343 | In every history from there the completed run and the job's planned time stay as they are |
| `SchedulerStuck.TablesStayOk` | src/placegame/scheduler.py:223-343 | Whatever jobs there are at first, every history keeps runs unique per account and slot, and a claimed job planned in the slot of its claim until the run is completed |
| `SchedulerStuck.SecondJobMayStick` | src/placegame/scheduler.py:185-191 | A history of one claim, one finish and one `ensure_jobs` from two twin jobs to a job that is enabled and never claimed again |
| `SchedulerRuns.SlotGranted` | src/placegame/scheduler.py:265-318 | One slot is granted exactly if no run of its account is uncompleted under an unexpired lease |
| `SchedulerTick.IdlePreviewScheduler.Tick` | src/placegame/scheduler.py:426-460 | Without the lease nothing changes and nothing is claimed; with it, jobs are provisioned, due jobs claimed and their runs finished; the lease is free afterwards, also if listing, provisioning or claiming raises, which itself changes nothing |
| `SchedulerTick.DispatchOrderDoesNotMatter` | src/placegame/scheduler.py:455-456 | In whatever order the claims of a tick are finished, the tables end up the same |
| `SchedulerTick.IdlePreviewScheduler.Dispatch` | src/placegame/scheduler.py:462-511 | The next run is planned from the clock of the tick, the completion from the clock of the ending; an ending that cannot be stored changes nothing |
| `SchedulerTick.TurnKeeps` | src/placegame/scheduler.py:426-511 | A whole turn keeps the invariant of the histories and only adds to the runs, so turns of several workers may follow one another in any state |
| `SchedulerTick.TurnCompletes` | src/placegame/scheduler.py:448-511 | After a turn every claim whose ending was stored is completed with its own result and time, and its job is planned one interval after the tick |
| `SchedulerTick.ClaimsDiffer` | src/placegame/scheduler.py:236-263 | The claims of one tick are for different jobs and different runs |
| `LeaderLease.OneLeader` | src/placegame/scheduler.py:133-160 | Under one monotone clock, no two workers' grants, each cut off at expiry or release, contain the same moment |
| `LeaderLease.GrantedExactlyIfFree` | src/placegame/scheduler.py:133-160 | In every history a worker that asks is granted the lease if and only if no grant of another worker is running: a leader that dies is replaced once its time is up |
| `LeaderLease.LateReleaseIsHarmless` | src/placegame/scheduler.py:345-356 | A release by another worker, however late, changes neither the row nor a running grant |
| `Accounts.AccountService.LoginAndBootstrap` | src/placegame/accounts/service.py:855-869 | Up to three tries, repeated only after a rejection; the first answer that is none decides, with its token, expiry and identity; three rejections are a rejection; made with the user name and password given |
| `Accounts.AccountService.BindOrMatchIdentity` | src/placegame/accounts/service.py:1204-1230 | Over the columns: matches exactly if the identity is the row's, or the row has none and nobody else has it; then the row has it; otherwise it is disabled and paused, unless the identity is empty |
| `Accounts.AccountService.AddCredentials` | src/placegame/accounts/service.py:171-228 | Done exactly if the login names an identity that no row has while every row has one; then exactly one row is new, with user name, password, token, expiry and identity of the login, enabled and unpaused |
| `Accounts.AccountService.AddTokenOnly` | src/placegame/accounts/service.py:230-291 | The same for a token that bootstraps; the new row has that token and no password |
| `Accounts.AccountService.UpdateCredentials` | src/placegame/accounts/service.py:314-388 | `UpdatePromise`, over the columns: done exactly if the password is not empty, the row exists without marker, a user name is given or stored, the login names an identity that the row may have, and a row without identity already had secrets of it; then mode, password, user name, token, expiry and identity are the new ones, the pause and the failures are gone, `enabled` and all other rows are as before; a refusal gives its error and keeps the secrets; a failure of the game takes everything back |
| `Accounts.AccountService.UpdateTokenOnly` | src/placegame/accounts/service.py:390-453 | `TokenPromise`: the same for a token; then user name and password are gone and token and expiry are the given ones |
| `Accounts.AccountService.EnsureSession` | src/placegame/accounts/service.py:534-577 | `VisitPromise`, over the columns: who is refused; nothing happens on a paused row; a fresh token that bootstraps gives the handle of its identity; a stale or rejected one pauses a token account and makes a credentials account log in with its own stored secrets, which renews token and expiry, or counts a failure, or shuts the account out; if what follows under the handle raises, the row is as before |
| `Accounts.AccountService.RecordAuthFailure` | src/placegame/accounts/service.py:996-1023 | A failure is counted in the hour of the first one, or opens a new one; the third in it pauses; nothing else changes |
| `Accounts.AccountService.SetLifecycle` | src/placegame/accounts/service.py:834-853 | Done exactly for a row without removal marker, of which only `enabled` changes; otherwise nothing does, and other rows never |
| `Accounts.AccountService.Pause` | src/placegame/accounts/service.py:461-475 | Done exactly for a non-blank reason and a row without marker, of which only the reason changes, to the trimmed one; otherwise nothing does |
| `Accounts.StripTrims` | src/placegame/accounts/service.py:461-467 | Trimming a reason cuts off exactly the white space at both ends |
| `Accounts.AccountService.Resume` | src/placegame/accounts/service.py:477-491 | Done exactly for a row without marker, of which only the reason is cleared; secrets, failure window and enabling stay |
| `Accounts.AccountService.MarkForRemoval` | src/placegame/accounts/service.py:493-505 | Done exactly for a row that is not removed, which is then disabled and marked with secrets and identity as before |
| `Accounts.AccountService.DrainAndRemove` | src/placegame/accounts/service.py:507-523 | Done for every row there is, which is then removed, disabled and without secrets; identity and mode stay, and so do the other rows |
| `AccountHistory.IdentitiesAreDistinct` | src/placegame/accounts/service.py:1204-1230 | Over all interleavings no two accounts share a game identity |
| `AccountHistory.IdentityIsForLife` | src/placegame/accounts/service.py:1204-1230 | No row is lost and a bound identity never changes |
| `AccountHistory.EnrolmentIsGuarded` | src/placegame/accounts/service.py:171-291 | An enrolment succeeds only while every row is bound and nobody has the identity |
| `AccountHistory.TokensAreVerified` | src/placegame/accounts/service.py:871-970 | Every session token that was not there at the start had bootstrapped to the identity that its row has |
| `AccountHistory.HandleIsOwn` | src/placegame/accounts/service.py:534-577 | A game handle is only given for the identity that the account has, or that it is bound to and nobody else has, and only if the account is neither paused nor marked |
| `AccountHistory.SuccessIsUsable` | src/placegame/accounts/service.py:171-453 | After a successful enrolment or update nothing pauses the account, no failure is counted, and a visit whose bootstrap confirms the identity gets its handle and changes nothing |
| `AccountHistory.MismatchShutsOut` | src/placegame/accounts/service.py:1168-1230 | A visit that meets another identity, by its token or by renewing it, gives no handle, keeps secrets and identity, disables and pauses the account; until it is renewed, resumed or enabled it stays so, and no visit gets a handle or changes anything |
| `AccountHistory.RemovalIsForEver` | src/placegame/accounts/service.py:493-523 | In every history and however the marker was set: marked stays marked, removed stays removed, and a marked row that is disabled, or removed and without secrets, stays so |
| `AccountHistory.RemovalIsProper` | src/placegame/accounts/service.py:493-523 | An account that nobody has paused with a reserved reason is disabled when it is marked, and without secrets when it is removed |
| `AccountHistory.NoHandleOnceMarked` | src/placegame/accounts/service.py:1141-1158 | In every history, once an account is marked no visit of it gets a handle or changes a row |
| `AccountHistory.PauseKeepsRemovalOkIff` | src/placegame/accounts/service.py:461-475 | A pause keeps the removal guarantee exactly if its reason is not reserved, or there is no such row without marker, or the row already fits the marker |
| `AccountHistory.PausedAsRemoved` | src/placegame/accounts/service.py:461-505 | Paused as "removed", an enabled account keeps its token, and the removal returns without clearing it |
| `AuthWindow.PausedOnlyAfterThree` | src/placegame/accounts/service.py:996-1012 | A pause comes only with the third of three failures in a row within less than an hour |
| `AuthWindow.FourFailuresPause` | src/placegame/accounts/service.py:996-1012 | Of any four failures in a row within less than an hour one pauses |
| `AuthWindow.ThreeMayNotPause` | src/placegame/accounts/service.py:1000-1005 | The smallest case: three such failures that do not pause |
| `AuthWindow.ThreeFailuresPauseIff` | src/placegame/accounts/service.py:996-1012 | Of three failures in a row within less than an hour one pauses if and only if the window before them does not close between the first two, having counted one failure before |
| `AuthHistory.WindowIsFold` | src/placegame/accounts/service.py:871-1023 | Over all interleavings a row's failure count and window are those of its failures and renewals |
| `AuthHistory.StepWindow` | src/placegame/accounts/service.py:871-1023 | Every transaction moves the window as its event says, and only the third counted failure sets the reason `authentication_required`, unless a pause spells it out |
| `AuthHistory.PausedForAuthentication` | src/placegame/accounts/service.py:996-1023 | Over all interleavings with a monotone clock: paused for authentication only after three failures in a row within less than an hour |
| `AuthHistory.FourFailuresPauseTheAccount` | src/placegame/accounts/service.py:996-1023 | And of four such failures one has paused the account |
| `AuthHistory.ThreeFailuresPauseTheAccountIff` | src/placegame/accounts/service.py:996-1023 | Over all interleavings with a monotone clock: of three such failures one has paused the account if and only if the window in its row before the first of them does not close between the first two |
| `PolicyStore.PostgresPolicyService.Save` | src/placegame/policy/store.py:54-142 | Over the columns: swapped exactly if versions and document agree and the version expected is the one in force; then both versions are one more and the document is the new one; any other version conflicts; what does not agree is unavailable; without success nothing changes; one audit event for a save or a conflict |
| `PolicyStore.PostgresPolicyService.Get` | src/placegame/policy/store.py:34-52 | The version and document of the account, defaults at version 1 without a row, exactly if versions agree and the document is valid; else unavailable |
| `PolicyStore.StoreIsListOfWinners` | src/placegame/policy/store.py:54-172 | Over every history both versions are one plus the number of successful saves, and the document is the last winner's |
| `PolicyStore.Linearisable` | src/placegame/policy/store.py:34-142 | Every reply, of reads and of saves, is that of a single register |
| `PolicyStore.OneWinnerPerVersion` | src/placegame/policy/store.py:86-97 | After a save has won, every later save that expects the same version is a conflict |
| `PolicyStore.EveryVersionWasWon` | src/placegame/policy/store.py:98-113 | Every version beyond the first was won by a save that expected the one before |
| `BossOptimizer.Optimizer.Optimize` | src/placegame/boss_optimizer.py:41-78 | The two refusals without any preview; otherwise the previews made, group by group, and the selection that follows from them |
| `BossOptimizer.Optimizer.ForEntry` | src/placegame/boss_optimizer.py:80-149 | Which previews one boss at one difficulty gets, in which order, where the search stops and what it returns |
| `BossOptimizer.Optimizer.TryAffixes` | src/placegame/boss_optimizer.py:113-129 | Affixes by rank, each with the three shortlisted candidates, until one works or twelve are made |
| `BossOptimizer.Optimizer.TargetSlot` | src/placegame/boss_optimizer.py:155-158 | The minimal eligible slot |
| `BossTheorems.TopThreeSuffice` | src/placegame/boss_optimizer.py:101-112 | Keeping three of the twelve baseline previews never loses eligibility, and the best is the one used |
| `BossTheorems.SearchIsComplete` | src/placegame/boss_optimizer.py:80-149 | Something is found exactly if some preview that was tried is eligible, and what is found is eligible |
| `BossTheorems.ChosenIsHighest` | src/placegame/boss_optimizer.py:101-129 | The affix used is the first in rank that works with a shortlisted candidate; if none works the best baseline preview is used |
| `BossFields.SelectionByFields` | src/placegame/boss_optimizer.py:80-149 | The whole search over fields of previews: in the group that is selected the first trial with an affix that works is used; if none works, the preview without affix that is best by win, chance, own health, the boss's health, skill and buff; nothing worked in an earlier group; material is used exactly above normal difficulty and the reserve |
| `BossFields.CarriersByFields` | src/placegame/boss_optimizer.py:101-126 | The three previews that carry the affixes are different, in that order, and no other is better than the last of them; trial `j` is carrier `j % 3` with affix `j / 3` |
| `BossFields.EveryPairIsTried` | src/placegame/boss_optimizer.py:88-100 | Every skill is tried with every buff, without affix and material |
| `BossFields.TrialsAreExhausted` | src/placegame/boss_optimizer.py:113-129 | If no trial works, there were twelve, or three for each affix |
| `BossTheorems.RankedDescends` | src/placegame/boss_optimizer.py:113 | Affixes are tried from the highest multiplier down, then by key |
| `BossTheorems.RankedAreTheBest` | src/placegame/boss_optimizer.py:113 | No affix that is left out outranks one that is kept |
| `BossFields.AffixesByFields` | src/placegame/boss_optimizer.py:113 | Twelve affixes, or all if fewer, by multiplier from the highest and then by key; none left out comes before one kept |
| `BossTheorems.FirstGroupWins` | src/placegame/boss_optimizer.py:64-78 | The boss and difficulty returned are the first whose tried previews contain an eligible one; without a selection, no preview tried anywhere was eligible |
| `BossTheorems.SearchOrder` | src/placegame/boss_optimizer.py:64-71 | The search covers exactly the open bosses at the difficulties they offer, in lexicographic order: level from the highest, then key, then nightmare, hard, normal |
| `BossFields.OrderByFields` | src/placegame/boss_optimizer.py:64-71 | Of two groups the earlier has the higher level, or the same and the first key; within one boss the harder difficulty |
| `BossTheorems.OfferedAreHardestFirst` | src/placegame/boss_optimizer.py:68-70 | Within one boss: nightmare, hard, normal |
| `BossTheorems.PreviewsAreBounded` | src/placegame/boss_optimizer.py:64-129 | Between 12 and 24 previews for each group that is searched, whether it finds something or not, and so for the whole search |
| `BossTheorems.TargetIsCheapest` | src/placegame/boss_optimizer.py:155-158 | The target is an eligible slot than which no eligible slot is cheaper by score and key |
| `BossFields.TargetByFields` | src/placegame/boss_optimizer.py:155-158 | The same in terms of score and key |
| `StableSort.SortAscends` | src/placegame/boss_optimizer.py:101-110 | Sorting by a Python key gives an ascending sequence |
| `StableSort.SortKeepsElements` | src/placegame/boss_optimizer.py:101-110 | And the same elements |
| `StableSort.SortIsStable` | src/placegame/boss_optimizer.py:101-110 | Elements that are tied keep their order |
| `Text.LessMeans` | src/placegame/boss_optimizer.py:101-113 | The string order of every ranking: the first difference decides, and a prefix comes first |

## Left out

- IdleTheorems.ExecutedMeansCollected: does not say that the collect behind `executed` is always the claim's own send, because that is false; it gives the exact condition, and IdleCounterexamples the ways in which it fails.
- IdleTheorems.NoStalePlanIsSent: speaks of sends under the account lock, because a call that has lost it may send a stale plan; StaleExactlyIfSaved says when.
- Mutation.AccountService.Mutate: one call, without a crash of the process: its transaction would be rolled back, so nothing is claimed across crashes. Cancellation is modelled where `mutate` catches it, before the operation and during the pause after a conflict.
- Accounts.AccountService.EnsureSession: the times of the last success and the last error are not columns of the model.
- SchedulerTheorems.RateIsBounded: counts slots, not the wall-clock moments at which previews run.
- SchedulerStuck.GrantedExactlyIfFree: of several due jobs of one account that are planned for the same slot, the first in the list may be claimed by a tick; which one comes first is left to the order of the database.
- SchedulerTick.IdlePreviewScheduler.Tick: finishes its claims one after the other, where the source does so concurrently; DispatchOrderDoesNotMatter shows that the order makes no difference. A dispatch that is cancelled is one whose ending is not recorded. Workers whose ticks overlap are covered by the steps of the histories.
- The scheduler's loop, its stop and close events and the mapping of exceptions to error codes; the result of a preview is a parameter.
- Overlap of a tick that outlives its leader lease: the lease theorems speak of the granted periods.
- Strings are sequences of Unicode scalar values; a lone surrogate, on which Python's encoder raises, cannot be written.
- Rate limiting, sleeps, jitter, timeouts and token expiry computation.
- Labels, snapshots, audit payloads and correlation identifiers; audit events are counted where a contract says so.
- The integrity-error paths that two overlapping transactions may take when they insert the same identity or the same slot: with atomic steps the preceding look-up already sees the other row.
- `PostgresPlanStore.mark_executing`, which nothing in the modelled calls uses, and validation of plan documents.
- Exceptions out of boss previews, which end the search, and NaN or rounding in the floating-point answers: percentages and multipliers are reals.
- Web routes, the tool adapter, configuration, migrations, encryption, rewards and the other plan builders: they would add single-function members.
