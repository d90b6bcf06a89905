# Verified models of the control plane's protocols and algorithms

The control plane keeps its authority in PostgreSQL. These modules model the
parts of it that carry protocol, compiler or arithmetic content and prove what
they promise over every input, every run or every reachable state.

| file | what it models |
|---|---|
| `BrowserHost.dfy` | the host process that runs browser actions behind its own identity, lease and fence |
| `BrowserLease.dfy` | the dispatch lease of a browser session: attach, renew, close, expiry |
| `BrowserSession.dfy` | the session lifecycle that the lease and the action tables share |
| `BrowserAction.dfy` | the action tables: start, T1, T2, ambiguity, phase reports, settling, reconciliation |
| `BrowserProtocol.dfy` | tables, host and frames together, with every interleaving, loss and crash |
| `SeccompFilter.dfy` | the classic BPF filter the sandbox launcher emits, its interpreter and the policy it must decide |
| `LockOrder.dfy` | the lock order guard and any number of transactions that use one each |
| `MigrationLedger.dfy` | the migration ledger and any number of competing `migrate` processes |
| `MonitorAlerts.dfy` | alert episodes, their ordering query, the outbox and the row guard |
| `ComponentLifecycle.dfy` | component lifecycle, heartbeats, state reports and the component audit stream |
| `WorkspacePatch.dfy` | workspace revisions and patches |
| `AuditChain.dfy`, `Bytes.dfy` | the global audit chain, its writer and its paged verifier |
| `Base32.dfy`, `Totp.dfy` | Base32 over a wrapping accumulator; one-time passwords |
| `LoginThrottle.dfy` | the login throttle |
| `Closure.dfy` | the closure expression interpreter and the orphan inventory |
| `Options.dfy`, `Search.dfy`, `Bits.dfy` | the optional value, linear search and binary digits the others share |

Every SQL transaction is one atomic step on explicit row state. Where the
program updates rows, a map or a buffer in place, a class with those fields
carries the operation as a method, and the method is proved equal to a
function of the old state; the invariants and the theorems over runs are about
those functions. Times are integers of one clock. Digests are either arbitrary
functions or, where it is said, compared as the data they digest.

Results that differ from what the code's own comments or tests suggest:

- `browser.action.cancel` can record CONFIRMED_NOT_APPLIED on a possibly mutating
  action the host has run. It happens from exactly four phases: OUTCOME_OBSERVED,
  CONFIRMED_APPLIED, CONFIRMED_NOT_APPLIED and FAILED_FINAL
  (`BrowserProtocol.CancelMisreportsExactly`). Without phase reports,
  reconciliations and verdicts other than cancel it cannot happen.
- Inside one host context a replayed ACTION frame never runs twice, and without a
  new ATTACH of its session it is refused for ever (`BrowserHost.ReplayNeedsAttach`);
  after the page closed and a replayed ATTACH opened a new context it does run
  again (`BrowserHost.ReplayAcrossContextsRunsTwice`).
- The lock order guard alone does not exclude deadlock once a shared lock may be
  strengthened. Any number of transactions can deadlock if and only if two of them
  strengthen the same lock past their guards and can stand there together
  (`LockOrder.DeadlocksExactly`); exclusive locks alone never do
  (`LockOrder.ExclusiveScriptsHaveNoRivals`).
- An alert observation refused for its activation epoch is not idempotent: it
  applies when delivered again under its own epoch
  (`MonitorAlerts.RefusedEpochMayApplyLater`; the exact condition is
  `MonitorAlerts.OpenChangesExactly`).
- A heartbeat recorded while its lineage was not current is never projected later
  (`ComponentLifecycle.BeatAdvancesExactly`), so delivery ends at the highest
  sequence among the heartbeats new to the stream, which is the highest of all
  exactly if its key was new or it does not exceed the runtime's (`ComponentLifecycle.DeliveryReachesMaximumExactly`).
- The monitoring state of a component, unlike its sequence, can depend on the order
  in which heartbeats arrive. It is the same for every order and duplication of a
  list exactly if every newest heartbeat, and every one that can be the last to
  switch to its operational state, leaves the same monitoring state
  (`ComponentLifecycle.MonitoringIsFixedExactly`; for two heartbeats
  `ComponentLifecycle.TwoOrdersAgreeExactly`).
- The empty predicate list prints to an expression the parser refuses
  (`Closure.PrintedListReadsBack`).
- The two accounts of closure disagree exactly when the filesystem inventory shows
  a present file that belongs to no published artifact, which only a custom
  inventory does (`Closure.AccountsDisagreeExactly`).
- The login throttle admits 22 failures in a quarter of an hour, not 12
  (`LoginThrottle.AtMost22Failures`, `LoginThrottle.BoundIsReached`).

## Model

| member | source | states |
|---|---|---|
| BrowserHost.BrowserHostProtocolServer.HandleRequest | packages/browser-automation-runtime/src/host.ts:89-108 | each frame kind answers and changes the context map as the handler does, refusals included |
| BrowserHost.BrowserHostProtocolServer.Current | packages/browser-automation-runtime/src/host.ts:83-88 | a context is usable only under the same identity, lease, token and an unexpired lease |
| BrowserHost.BrowserHostProtocolServer.FinishAttach | packages/browser-automation-runtime/src/host.ts:91-96 | an attach stores a fresh context whose last fence is zero, after the wait that follows its check |
| BrowserHost.ActionRunsExactly | packages/browser-automation-runtime/src/host.ts:83-106 | an ACTION is executed if and only if its session has a context with the same identity, lease id and token, the shown lease still runs, its fence is higher, its descriptor valid and its origin allowed; it leaves one effect and its fence |
| BrowserHost.RefusalNamesFirstFailure | packages/browser-automation-runtime/src/host.ts:83-105 | a refused ACTION or OBSERVE is told the first check that fails: context, identity, lease, then fence, descriptor, origin |
| BrowserHost.ObserveAnswersExactly | packages/browser-automation-runtime/src/host.ts:99-101 | OBSERVE answers exactly from a context of the same identity under the same, running lease, and changes nothing |
| BrowserHost.CloseRemovesExactly | packages/browser-automation-runtime/src/host.ts:98-100 | CLOSE removes exactly such a context and no other; a missing one is already closed |
| BrowserHost.SynchronizeReplacesExactly | packages/browser-automation-runtime/src/host.ts:97 | SYNCHRONIZE replaces identity and lease exactly when the token does not fall, and keeps fence and context |
| BrowserHost.AttachWaitsExactly | packages/browser-automation-runtime/src/host.ts:89-92 | ATTACH goes on to the browser exactly when its session has no context |
| BrowserHost.AttachStoresExactly | packages/browser-automation-runtime/src/host.ts:94 | a finished attach stores a new context with fence zero; a closed page removes its session's context and no other |
| BrowserHost.RunIsFenced | packages/browser-automation-runtime/src/host.ts:83-108 | over every run of the host, inside one context executed fences strictly increase and the lease tokens they ran under never decrease |
| BrowserHost.FrameRunsAtMostOnce | packages/browser-automation-runtime/src/host.ts:102-106 | whatever is duplicated or reordered, one fence has at most one effect inside one context |
| BrowserHost.TokenNeverDecreases | packages/browser-automation-runtime/src/host.ts:97 | while a session keeps its context, its lease token and last fence never go back |
| BrowserHost.SupersededFramesNeverRun | packages/browser-automation-runtime/src/host.ts:83-106 | what a context runs from any state on, it runs under a token not below the one it then holds and beyond its last fence, so no frame of a superseded worker runs after a newer lease was synchronized |
| BrowserHost.ReplayNeedsAttach | packages/browser-automation-runtime/src/host.ts:91-106 | without another stored ATTACH of its session, an executed frame and every lower fence is refused for ever |
| BrowserHost.ReplayAcrossContextsRunsTwice | packages/browser-automation-runtime/src/host.ts:91-105 | the limit of that: after a page close, replayed ATTACH and ACTION frames execute again |
| BrowserLease.BrowserSessionService.PrepareAttachment | packages/browser-automation-runtime/src/session-service.ts:141 | expiry, selection and the new lease with the next token, in one transaction |
| BrowserLease.BrowserSessionService.CommitAttachment | packages/browser-automation-runtime/src/session-service.ts:143 | only the acquired, current, unexpired lease of a waiting session becomes attached |
| BrowserLease.BrowserSessionService.BeginClose | packages/browser-automation-runtime/src/session-service.ts:120-125 | the close request is recorded once and reused on a repeat |
| BrowserLease.BrowserSessionService.FinishClose | packages/browser-automation-runtime/src/session-service.ts:127-135 | the lease is released only for its own token, request and session version |
| BrowserLease.PrepareExpiresExactly | packages/browser-automation-runtime/src/session-service.ts:141 | every unreleased lease whose end has come is expired and released, and every other one stays as it was |
| BrowserLease.PrepareAcquiresExactly | packages/browser-automation-runtime/src/session-service.ts:141 | a worker gets a lease if and only if the session waits, the manifest is found and no acquired or attached lease of it still runs; the new row, its token and its half minute |
| BrowserLease.CommitAttachesExactly | packages/browser-automation-runtime/src/session-service.ts:143 | an attachment commits if and only if its lease is acquired, carries the token and still runs and the session waits; what it writes |
| BrowserLease.FailReleasesExactly | packages/browser-automation-runtime/src/session-service.ts:144 | a failed attachment releases its own acquired lease and no other |
| BrowserLease.RenewExtendsExactly | packages/browser-automation-runtime/src/session-service.ts:82 | dispatching an action extends the session's attached lease and no other row |
| BrowserLease.CloseBeginsExactly | packages/browser-automation-runtime/src/session-service.ts:120-125 | a close begins for the attached lease of a closing session without open actions, and reuses an earlier request |
| BrowserLease.CloseEndsExactly | packages/browser-automation-runtime/src/session-service.ts:127-135 | a close ends if and only if lease, token, request, lifecycle and version still match; what it writes |
| BrowserLease.AtMostOneLiveLease | packages/browser-automation-runtime/src/session-service.ts:141-144 | over every interleaving of workers and expiry a session has at most one unreleased acquired or attached lease |
| BrowserLease.NewTokenExceedsAllEarlier | packages/browser-automation-runtime/src/session-service.ts:141 | a new token exceeds every token the session was ever given, whose leases are all released |
| BrowserLease.SupersededCommitsAreRefused | packages/browser-automation-runtime/src/session-service.ts:127-144 | attach, close and failure of a lease with a successor change nothing |
| BrowserLease.ReleaseIsFinal | packages/browser-automation-runtime/src/session-service.ts:134-144 | no later run revives a released lease |
| BrowserLease.RowsKeepOwnerAndToken | packages/browser-automation-runtime/src/session-service.ts:141-144 | lease rows keep their session and token for ever |
| BrowserAction.BrowserActionStore.CommitT1 | packages/browser-automation-runtime/src/session-service.ts:58-88 | T1 creates the attempt, its first log, the fence and the phase, or refuses in the order of its checks |
| BrowserAction.BrowserActionStore.CommitT2 | packages/browser-automation-runtime/src/session-service.ts:90-97 | T2 needs the attempt's own fence and an open phase, extends the log and records the outcome |
| BrowserAction.BrowserActionStore.MarkAmbiguous | packages/browser-automation-runtime/src/session-service.ts:139 | a lost answer makes an open run UNKNOWN and leaves every other run alone |
| BrowserAction.BrowserActionStore.RecordDispatchPhase | packages/domain/src/canonical-operation-handlers.ts:552-574 | a phase report is monotonic, a repeat is a duplicate, and it may move a run to a later phase |
| BrowserAction.BrowserActionStore.SettleRun | packages/domain/src/canonical-operation-handlers.ts:576-592 | cancel, complete, fail and resolve with their guards, and the session failure of an UNKNOWN outcome |
| BrowserAction.RegistryIsExactly | packages/schemas/src/index.ts:198-212 | the effect class of each action; only OBSERVE, DIALOG, PERMISSION and CHALLENGE cannot change anything outside |
| BrowserAction.T1DispatchesExactly | packages/browser-automation-runtime/src/session-service.ts:58-70 | T1 dispatches if and only if run, session and lease are there and control, fences, registry, target, payload, identity, origins and upload all hold |
| BrowserAction.T1RefusesInOrder | packages/browser-automation-runtime/src/session-service.ts:61-72 | a refused T1 names the first of its checks that fails |
| BrowserAction.T1MarksPossibleEffect | packages/browser-automation-runtime/src/session-service.ts:84-86 | every other action is left in POSSIBLE_EFFECT with the trigger last in its log, those four in DISPATCH_AUTHORIZED with the input last, and the log is just the listed phases |
| BrowserAction.T1WritesExactly | packages/browser-automation-runtime/src/session-service.ts:78-87 | one attempt under the session's next fence, and a frame that shows the lease for half a minute |
| BrowserAction.T2CommitsExactly | packages/browser-automation-runtime/src/session-service.ts:91 | T2 commits if and only if the run is in an open phase and the fence is its attempt's |
| BrowserAction.T2WritesExactly | packages/browser-automation-runtime/src/session-service.ts:92-96 | the log gets what came back; an observation counts as not applied, anything else must be reconciled |
| BrowserAction.T2MovesSessionExactly | packages/browser-automation-runtime/src/session-service.ts:95 | an observation moves the session by one revision, a navigation also to a new document |
| BrowserAction.FailureMarksUnknownExactly | packages/browser-automation-runtime/src/session-service.ts:139 | a lost answer makes UNKNOWN of a run in an open phase and changes nothing else |
| BrowserAction.ReportIsRecordedExactly | packages/domain/src/canonical-operation-handlers.ts:562-571 | against the last logged phase an earlier report is refused, an equal one a duplicate, a later one recorded, and where each leads |
| BrowserAction.FirstReportIsRecorded | packages/domain/src/canonical-operation-handlers.ts:562-571 | a report on an attempt without any event is recorded as number one |
| BrowserAction.ReportIsRefusedInOrder | packages/domain/src/canonical-operation-handlers.ts:554-561 | what a report needs before that |
| BrowserAction.SettleDecidesExactly | packages/domain/src/canonical-operation-handlers.ts:580-584 | when each verdict is accepted, and the refusal otherwise |
| BrowserAction.SettleWritesExactly | packages/domain/src/canonical-operation-handlers.ts:582-589 | the phase each verdict records; only an unknown outcome fails the session |
| BrowserAction.ReconcileDecidesExactly | packages/domain/src/exact-operation-handlers.ts:698-716 | what a trusted read-back confirms for each kind of action |
| BrowserAction.StartRecordsExactly | packages/domain/src/canonical-operation-handlers.ts:534-549 | when a run is started, and the fences it records |
| BrowserProtocol.DispatchLogIsCanonical | packages/domain/src/canonical-operation-handlers.ts:71-82 | whichever of the three writers appends, every log is numbered 1..n with strictly increasing phases, fits the run's phase, and a run has at most one attempt |
| BrowserProtocol.FramesTravelOnce | packages/browser-automation-runtime/src/session-service.ts:36-42 | T1 sends one frame, which reaches the host once and is answered if the host accepts it |
| BrowserProtocol.ActionRunsAtMostOnce | packages/browser-automation-runtime/src/session-service.ts:58-97 | over every run of the whole system the host runs one action run at most once |
| BrowserProtocol.T2CommitsAtMostOnce | packages/browser-automation-runtime/src/session-service.ts:90-97 | after one committed T2 no other T2 of that run commits, whatever happens in between |
| BrowserProtocol.LateStepsAfterT2ChangeNothing | packages/browser-automation-runtime/src/session-service.ts:90-97 | after a committed T2, with anything in between, phase reports included, no late T1, T2, frame or failAction changes the run |
| BrowserProtocol.CommittedOutcomeHasEffect | packages/browser-automation-runtime/src/session-service.ts:90-97 | a committed T2 is backed by an execution at the host |
| BrowserProtocol.OutcomeIsNotOverwritten | packages/browser-automation-runtime/src/session-service.ts:139 | late T1, T2, failures and frames never change a run that has left its open phases |
| BrowserProtocol.NoAttemptNoEffect | packages/browser-automation-runtime/src/session-service.ts:58-60 | a run that left INTENT_RECORDED without an attempt is never executed, in any continuation |
| BrowserProtocol.NotAppliedMeansNeverRan | packages/domain/src/canonical-operation-handlers.ts:581 | without outcome verdicts and phase reports, CONFIRMED_NOT_APPLIED on any action but OBSERVE, DIALOG, PERMISSION and CHALLENGE means it never ran and never will |
| BrowserProtocol.CancelMisreportsExactly | packages/domain/src/canonical-operation-handlers.ts:576-592 | with every handler allowed, cancel misreports an executed action other than those four from a phase if and only if it is one of four phases |
| SeccompFilter.FilterProgram.AppendFilter | deploy/runtime/kcml-sandbox-launcher.c:376-378 | one instruction goes to the end of the program |
| SeccompFilter.FilterProgram.AppendList | deploy/runtime/kcml-sandbox-launcher.c:476-481 | the allowlist loop emits one test per entry, each jumping over what remains, then kill and allow |
| SeccompFilter.FilterProgram.AppendIoUring | deploy/runtime/kcml-sandbox-launcher.c:432-437 | the io_uring loop emits one refusal per number |
| SeccompFilter.FilterProgram.InstallAllowlist | deploy/runtime/kcml-sandbox-launcher.c:395-481 | the whole generator emits the program and fills 36 plus both list lengths of the 256 slots |
| SeccompFilter.ListBlockDecides | deploy/runtime/kcml-sandbox-launcher.c:469-481 | from any entry on, a list block allows exactly the words in the rest of its list |
| SeccompFilter.CloneBlockDecides | deploy/runtime/kcml-sandbox-launcher.c:444-454 | the clone block decides thread-only clones although it overwrites the accumulator, and passes every other call on intact |
| SeccompFilter.ExecveatBlockDecides | deploy/runtime/kcml-sandbox-launcher.c:456-464 | execveat is allowed on the one descriptor with the empty path only |
| SeccompFilter.ThreadCloneMeans | deploy/runtime/kcml-sandbox-launcher.c:447-452 | the two masked tests admit exactly the flag words between the two masks, bit by bit |
| SeccompFilter.ProgramDecidesPolicy | deploy/runtime/kcml-sandbox-launcher.c:423-481 | for all lists of at most 220 entries and every input, the program returns the declared verdict, never leaves its length and has the call number loaded at every top-level test |
| SeccompFilter.TopLevelTestsExactly | deploy/runtime/kcml-sandbox-launcher.c:423-481 | the top-level tests are exactly the comparisons with a call number, and which one each recognises |
| SeccompFilter.SlotsSufficeExactly | deploy/runtime/kcml-sandbox-launcher.c:421-422 | the 256 slots suffice exactly for lists of at most 220 entries, whose jumps fit in eight bits |
| LockOrder.LockOrderGuard.Acquire | packages/database/src/index.ts:243-257 | remembering only the last class and key, the guard admits exactly the non-decreasing sequences |
| LockOrder.LessIsTotalOrder | packages/database/src/index.ts:219-251 | the guard's comparison is a strict total order on class and key |
| LockOrder.ClassesDecideFirst | packages/database/src/index.ts:219-251 | the classes come in their listed order, and only within a class the keys decide |
| LockOrder.KeyLessExactly | packages/database/src/index.ts:250 | the first differing code unit decides, and a proper beginning comes first |
| LockOrder.DeadlocksExactly | packages/database/src/index.ts:243-257 | any number of any scripts can reach a cycle of waits if and only if two of them strengthen one lock past their guards and are compatible until then |
| LockOrder.ExclusiveScriptsHaveNoRivals | packages/database/src/index.ts:259-280 | scripts that take exclusive locks only, as advisory locks and FOR UPDATE are, have no such pair |
| LockOrder.ScriptDeadlocksExactly | packages/database/src/index.ts:248-257 | a script can deadlock with an upgrade of a lock if and only if the guard lets it strengthen that lock itself |
| LockOrder.WaitForIsAcyclic | packages/database/src/index.ts:243-280 | without rivals, in every reachable state no path of the wait-for graph returns to its start |
| LockOrder.SomeoneCanStep | packages/database/src/index.ts:259-280 | without rivals, while a transaction is unfinished, some transaction can step |
| LockOrder.RunsAreBounded | packages/database/src/index.ts:259-280 | every run of effective steps, of any scripts, is bounded by the requests still to be made |
| LockOrder.StuckMeansFinished | packages/database/src/index.ts:259-280 | without rivals, a run that cannot go on has committed or rolled back every transaction |
| LockOrder.OrderedScriptsAllCommit | packages/database/src/index.ts:248-257 | without rivals, transactions that ask in order and do not fail all commit, whatever the interleaving |
| LockOrder.UpgradesDeadlock | packages/database/src/index.ts:248-257 | for every lock, two holders of a shared lock that both strengthen it pass their guards and deadlock |
| MigrationLedger.SchemaLedger.RecordGreenfieldBaseline | packages/database/src/cli.ts:18-45 | on any ledger, a recorded baseline is checked for checksum and state and a missing one is inserted, heads permitting |
| MigrationLedger.SchemaLedger.Claim | packages/database/src/cli.ts:57-71 | a claim needs heads, no open row and an unused version |
| MigrationLedger.SchemaLedger.FinalizeClaim | packages/database/src/cli.ts:84-94 | APPLIED needs RUNNING, the same owner and the same heads |
| MigrationLedger.SchemaLedger.MarkFailed | packages/database/src/cli.ts:102-105 | only the owner's RUNNING row becomes FAILED |
| MigrationLedger.InspectDecidesExactly | packages/database/src/cli.ts:48-53 | a recorded row lets a process go on if and only if it is APPLIED under the migration's checksum; the two refusals |
| MigrationLedger.ClaimInsertsExactly | packages/database/src/cli.ts:57-71 | a claim is inserted if and only if heads exist, no row is open and the version is unused; the row it inserts |
| MigrationLedger.BaselineInsertsExactly | packages/database/src/cli.ts:29-37 | the baseline row is inserted once, as APPLIED and without a predecessor |
| MigrationLedger.FinalizeAppliesExactly | packages/database/src/cli.ts:84-94 | a claim is finalized if and only if its row is RUNNING for the owner under the heads that are still current |
| MigrationLedger.FailMarksExactly | packages/database/src/cli.ts:102-105 | only the owner's RUNNING row becomes FAILED, whatever the heads are |
| MigrationLedger.SchemaLedger.ApplyForwardMigration | packages/database/src/cli.ts:47-107 | on any ledger, one migration by one process: every error it throws, the row it leaves, and that its own claim is always finalized or failed |
| MigrationLedger.SchemaLedger.Migrate | packages/database/src/cli.ts:109-117 | on any ledger the command stops with the error of the first migration that cannot go through, having added one row for each missing one before it |
| MigrationLedger.MigrateSucceedsExactly | packages/database/src/cli.ts:109-117 | on a prefix of the list it succeeds exactly when no row is open or failed, heads exist and the SQL works, and then leaves the whole list APPLIED |
| MigrationLedger.MigrateAppliesChain | packages/database/src/cli.ts:47-53 | on any ledger success means the whole list is APPLIED under its checksums, and a repeat under any heads changes nothing |
| MigrationLedger.MigrateKeepsPrefix | packages/database/src/cli.ts:109-117 | alone, the command keeps a prefix of the list a linked prefix, whether it succeeds or stops |
| MigrationLedger.SoloRunMigrates | packages/database/src/cli.ts:47-117 | the process machine refines the command: alone on any ledger it ends with the command's verdict and rows |
| MigrationLedger.LedgerIsChainPrefix | packages/database/src/cli.ts:47-107 | under any interleaving, failure and crash of any number of processes the rows are a linked prefix of the list, all but the last APPLIED |
| MigrationLedger.AtMostOneOpenMigration | packages/database/src/cli.ts:59-71 | at most one row is not APPLIED, and it is the last, although the advisory lock is per version |
| MigrationLedger.SqlStartsAtMostOnce | packages/database/src/cli.ts:79-81 | SQL is started in list order, each at most once, and before its row can be APPLIED |
| MigrationLedger.SqlStartsAfterPredecessors | packages/database/src/cli.ts:47-81 | at the moment SQL starts, every earlier migration is APPLIED and the only open row is its own |
| MigrationLedger.DoneMeansApplied | packages/database/src/cli.ts:109-117 | a finished process finds the whole chain APPLIED |
| MigrationLedger.HistoryIsKept | packages/database/src/cli.ts:89-104 | no run removes or rewrites a row; only RUNNING changes state |
| MigrationLedger.FailureFreezes | packages/database/src/cli.ts:48-53 | after a failed migration no process changes the ledger |
| MonitorAlerts.AlertTables.AllocateContiguousSequence | packages/database/src/index.ts:147-161 | the counter row starts at zero and is incremented by one |
| MonitorAlerts.AlertTables.SelectLatest | packages/domain/src/monitor-operations.ts:115 | the ordering query as one pass over the rows |
| MonitorAlerts.LatestIsFirst | packages/domain/src/monitor-operations.ts:115 | on any rows the one pass returns a row of the scope before which no other sorts |
| MonitorAlerts.SortsBeforeExactly | packages/domain/src/monitor-operations.ts:115 | the ORDER BY column by column: open before closed, then the later sighting, then the later creation |
| MonitorAlerts.AlertTables.OpenAlert | packages/domain/src/monitor-operations.ts:109-130 | open refuses, ignores, advances the episode or starts a new one |
| MonitorAlerts.AlertTables.ObserveAlert | packages/domain/src/monitor-operations.ts:132-136 | an observation of one alert under its expected version |
| MonitorAlerts.AlertTables.AcknowledgeAlert | packages/domain/src/monitor-operations.ts:137-148 | acknowledging lifts a suppression and stamps the time |
| MonitorAlerts.AlertTables.SuppressAlert | packages/domain/src/monitor-operations.ts:137-148 | suppression needs a time after the database's |
| MonitorAlerts.AlertTables.CloseAlert | packages/domain/src/monitor-operations.ts:151-163 | only a new observation closes an episode |
| MonitorAlerts.OpenDecidesExactly | packages/domain/src/monitor-operations.ts:109-121 | against the newest episode an observation is stale, a duplicate, refused, recorded on it or the start of the next; recorded, a suppression stays if and only if it is observed before its end |
| MonitorAlerts.FirstOpenBegins | packages/domain/src/monitor-operations.ts:122-130 | the first observation of a scope begins an episode with its own times, sequence and digest |
| MonitorAlerts.ObserveDecidesExactly | packages/domain/src/monitor-operations.ts:84-101 | an observation of one alert: when it is stale, duplicate, refused or applied, and the status, suppression, digest, sequence and sighting it leaves |
| MonitorAlerts.LockRefusesInOrder | packages/domain/src/monitor-operations.ts:76-83 | a missing row, version, a wrong version and a closed row are refused in this order by every command |
| MonitorAlerts.AcknowledgeDecidesExactly | packages/domain/src/monitor-operations.ts:140-143 | when an acknowledgement is accepted, and the row it leaves |
| MonitorAlerts.SuppressDecidesExactly | packages/domain/src/monitor-operations.ts:144-146 | when a suppression is accepted, and the row it leaves |
| MonitorAlerts.CloseDecidesExactly | packages/domain/src/monitor-operations.ts:151-160 | when a close is accepted, and the row it leaves |
| MonitorAlerts.EpisodesMoveForward | packages/domain/src/monitor-operations.ts:84-130 | of two episodes of one scope the older is closed, with the lower sequence and no later sighting |
| MonitorAlerts.QuerySelectsNewest | packages/domain/src/monitor-operations.ts:115 | the ordering by status and time always returns the newest episode, which has the highest sequence |
| MonitorAlerts.CountersAgree | packages/domain/src/monitor-operations.ts:62-69 | state version equals the last of the contiguous outbox sequences, the occurrence count equals the applied observations, SUPPRESSED holds exactly with a suppression time |
| MonitorAlerts.StepPassesGuards | database/baseline/00000000000001_ssot_surface.sql:6854-6872 | no accepted command is refused by the row guard or the unique open episode |
| MonitorAlerts.GuardAcceptsExactly | database/baseline/00000000000001_ssot_surface.sql:6854-6872 | what the row guard lets pass, by the trigger's own list of moves |
| MonitorAlerts.OpenChangesExactly | packages/domain/src/monitor-operations.ts:84-121 | an open observation changes anything if and only if its epoch is current and no episode has settled it |
| MonitorAlerts.RedeliveryChangesNothing | packages/domain/src/monitor-operations.ts:109-121 | redelivering any part of a history of open observations, in any order and under any epoch, changes no row |
| MonitorAlerts.RefusedEpochMayApplyLater | packages/domain/src/monitor-operations.ts:70-72 | an observation first refused for its epoch applies once that epoch is current |
| ComponentLifecycle.ComponentTables.AppendComponentAuditEvent | packages/domain/src/component-operations.ts:158-180 | a new key extends the stream, a known one is a duplicate or a conflict |
| ComponentLifecycle.ComponentTables.UpdateComponent | database/baseline/00000000000001_ssot_surface.sql:6821-6838 | an update moves both counters by one and is refused by the row guard, with its lifecycle and activation tables, or by the table checks otherwise |
| ComponentLifecycle.ComponentTables.AcceptHeartbeat | packages/domain/src/component-operations.ts:261-297 | a heartbeat is recorded, and projected only if current and newer |
| ComponentLifecycle.ComponentTables.AcceptObservation | packages/domain/src/component-operations.ts:304-324 | one observation of a state report |
| ComponentLifecycle.ComponentTables.AcceptReport | packages/domain/src/component-operations.ts:299-327 | the observations of a report in order, all or none |
| ComponentLifecycle.AuditDecidesExactly | packages/domain/src/component-operations.ts:158-180 | new, duplicate and conflicting keys, and the event a new one appends |
| ComponentLifecycle.UpdateDecidesExactly | database/baseline/00000000000001_ssot_surface.sql:6815-6838 | an update passes if and only if it follows both transition tables and keeps the authority checks |
| ComponentLifecycle.BeatDecidesExactly | packages/domain/src/component-operations.ts:261-275 | when a heartbeat is refused, repeated or accepted |
| ComponentLifecycle.BeatWritesExactly | packages/domain/src/component-operations.ts:276-296 | what an accepted one moves: sequence and lasting degradation of its runtime, and the component when its state changed |
| ComponentLifecycle.ReportDecidesExactly | packages/domain/src/component-operations.ts:304-316 | when a state observation is refused, repeated or accepted |
| ComponentLifecycle.ReportWritesExactly | packages/domain/src/component-operations.ts:317-324 | the one column it sets, if it speaks for the runtime and changes it |
| ComponentLifecycle.CommandRefusesInOrder | packages/domain/src/component-operations.ts:149-156 | a command needs the current version and a component that is not deregistered |
| ComponentLifecycle.CommandNamesRefusal | packages/domain/src/component-operations.ts:329-390 | which lifecycle, readiness and closure refusals a current command gets |
| ComponentLifecycle.CommandDecidesExactly | packages/domain/src/component-operations.ts:329-397 | where each command may start, what it makes of the row, and the barrier and event it leaves |
| ComponentLifecycle.RegistersExactly | packages/domain/src/component-operations.ts:246-251 | a component is registered as an inactive draft without pointers |
| ComponentLifecycle.AuditStreamIsChain | packages/domain/src/component-operations.ts:158-180 | after any run the stream is a hash chain without gaps, with unique keys and a matching head |
| ComponentLifecycle.DeregisteredStays | packages/domain/src/component-operations.ts:357-397 | on a deregistered component no command, heartbeat or report gets as far as the row guard; a command ends as version conflict or terminal |
| ComponentLifecycle.DeregisteredIsFinal | packages/domain/src/component-operations.ts:357-397 | once deregistered, the row is the same after every further run |
| ComponentLifecycle.BeatOnDeregistered | packages/domain/src/component-operations.ts:269-285 | such a heartbeat is still accepted and appended as evidence, without touching component or runtime |
| ComponentLifecycle.DeliverSettles | packages/domain/src/component-operations.ts:261-297 | from any consistent state, delivered heartbeats leave the sequence and both states that the ones new to the stream settle on |
| ComponentLifecycle.DeliveryEndsAtHighestFresh | packages/domain/src/component-operations.ts:282-284 | the runtime ends at the highest of its sequence and those of the heartbeats new to the stream |
| ComponentLifecycle.DeliveryReachesMaximumExactly | packages/domain/src/component-operations.ts:261-285 | that is the highest sequence of all if and only if it does not exceed the start or its key was new |
| ComponentLifecycle.DeliveryOrderIsIrrelevant | packages/domain/src/component-operations.ts:261-297 | from any consistent state, any order and duplication ends at the same sequence, and at the same operational state if the newest new ones agree on it |
| ComponentLifecycle.OperationalIsFixedExactly | packages/domain/src/component-operations.ts:282-296 | the operational state is the same for every order and duplication if and only if the newest new heartbeats agree on it |
| ComponentLifecycle.BeatAdvancesExactly | packages/domain/src/component-operations.ts:167-170 | a current, newer heartbeat advances its runtime if and only if its key is new to the stream |
| ComponentLifecycle.MonitoringIsFixedExactly | packages/domain/src/component-operations.ts:286-288 | the monitoring state is the same for every order and duplication if and only if all that can come first or switch last leave one |
| ComponentLifecycle.TwoOrdersAgreeExactly | packages/domain/src/component-operations.ts:286-288 | for two new heartbeats, the two conditions under which both orders leave one monitoring state |
| ComponentLifecycle.MonitoringDependsOnOrder | packages/domain/src/component-operations.ts:286-288 | a ready and an unready heartbeat that report the same change leave different monitoring states in the two orders |
| WorkspacePatch.ApplyOperations | packages/domain/src/canonical-operation-handlers.ts:746-758 | the in-place patch loop is the fold of its operations, errors included |
| WorkspacePatch.WorkspaceTables.PatchWorkspace | packages/domain/src/canonical-operation-handlers.ts:734-781 | a patch writes revision, patch row and job pointer, or nothing |
| WorkspacePatch.PathIsAcceptedExactly | packages/domain/src/canonical-operation-handlers.ts:748 | a path is accepted if and only if it joins names that are not empty, dot or dots and hold no slash |
| WorkspacePatch.ItemDecidesExactly | packages/domain/src/canonical-operation-handlers.ts:747-758 | an operation is accepted if and only if its path is contained, its expected digest is the file's and its content is there; the one path it changes, and each refusal |
| WorkspacePatch.PatchRefusesInOrder | packages/domain/src/canonical-operation-handlers.ts:734-742 | the checks before the first operation, each named when it fails first |
| WorkspacePatch.PatchAppliesExactly | packages/domain/src/canonical-operation-handlers.ts:743-777 | past those a patch is accepted if and only if its base is current and its operations pass; all it writes |
| WorkspacePatch.ValidPathsAreContained | packages/domain/src/canonical-operation-handlers.ts:748 | accepted paths stay below the root and different paths name different files |
| WorkspacePatch.CurrentTreeIsFold | packages/domain/src/canonical-operation-handlers.ts:734-781 | after any run the current tree is the fold of every accepted operation in order and its number counts the patches |
| WorkspacePatch.RevisionsFormChain | packages/domain/src/canonical-operation-handlers.ts:764-769 | revision numbers fall by one along the parents to an empty revision 0, and every path in every revision is valid |
| WorkspacePatch.StaleBaseIsRefused | packages/domain/src/canonical-operation-handlers.ts:743-777 | once a patch is accepted, another on the same base of its job is refused after any commands in between, and the earlier revisions stay |
| WorkspacePatch.AcceptedBasesIncrease | packages/domain/src/canonical-operation-handlers.ts:743-777 | after any run the accepted patches of one job have different, increasing bases |
| WorkspacePatch.UndoRestores | packages/domain/src/canonical-operation-handlers.ts:747-758 | the inverse operations are accepted and give the tree back |
| WorkspacePatch.AcceptedPatchHasInverse | packages/domain/src/canonical-operation-handlers.ts:734-781 | after any run an accepted patch has an inverse patch that is accepted and restores the tree |
| AuditChain.VerifyPage | packages/domain/src/audit-integrity.ts:36-55 | the inner loop follows the chain through one page |
| AuditChain.VerifyAuditChainClient | packages/domain/src/audit-integrity.ts:18-62 | for every page size from 1 to 10000 the verdict, errors included, is that of one pass |
| AuditChain.SinglePassExactly | packages/domain/src/audit-integrity.ts:36-62 | the pass accepts exactly the gapless, linked, digest-correct chains that end at the head |
| AuditChain.FirstErrorIsNamed | packages/domain/src/audit-integrity.ts:36-50 | the first bad row decides the verdict: a gap names the expected sequence, a wrong link or digest the row |
| AuditChain.HeadDecidesLast | packages/domain/src/audit-integrity.ts:57-60 | without a bad row a wrong head is the error |
| AuditChain.HashedBytesAre | packages/domain/src/audit-integrity.ts:46-49 | the bytes that are hashed, position by position |
| AuditChain.HashInputParses | packages/domain/src/audit-integrity.ts:47-49 | the hashed concatenation parses in one way only |
| AuditChain.HeadBindsHistory | packages/domain/src/audit-integrity.ts:25-62 | two verified stores with one head hold the same types and payload bytes everywhere unless strings hashed at one place collide |
| AuditChain.AppendWritesExactly | database/baseline/00000000000000_greenfield.sql:597-604 | the row and the head one append leaves |
| AuditChain.AppendedEntriesStay | database/baseline/00000000000000_greenfield.sql:599-602 | the rows hold the types and payloads that were appended, in their order |
| AuditChain.AppendedLogVerifies | database/baseline/00000000000000_greenfield.sql:584-607 | every log the appending function writes verifies with all its events |
| Base32.Base32Encode | packages/domain/src/crypto.ts:41-49 | the encoder's wrapping loop emits exactly the five-bit groups of its input |
| Base32.Base32Decode | packages/domain/src/crypto.ts:51-60 | the decoder's wrapping loop emits exactly the whole bytes, or refuses a foreign character |
| Base32.WrapKeepsPending | packages/domain/src/crypto.ts:44-56 | the 32-bit wrap never disturbs the bits still to be read |
| Base32.RoundTrip | packages/domain/src/crypto.ts:40-60 | decoding an encoding, with any trailing padding, gives the bytes back; its length is ceil(8n/5) |
| Base32.AlphabetIsRfc4648 | packages/domain/src/crypto.ts:40 | the alphabet is table 3 of RFC 4648, by character code |
| Base32.EncodeWritesNumber | packages/domain/src/crypto.ts:41-49 | the characters are the base-32 digits of the number the bytes write, shifted to whole characters |
| Base32.DecodeReadsNumber | packages/domain/src/crypto.ts:51-60 | the bytes are that number without the bits left over |
| Base32.DecodesExactly | packages/domain/src/crypto.ts:52-55 | a string decodes if and only if all but its trailing equal signs are letters of either case or digits from 2 to 7 |
| Totp.TruncationIs | packages/domain/src/crypto.ts:66-68 | a 20-byte MAC is truncated in bounds, below 2^31, to exactly six digits of its value |
| Totp.TruncationReadsBigEndian | packages/domain/src/crypto.ts:66-67 | the truncated number is written, big-endian, by the four bytes at the offset the last one names, without the sign bit |
| Totp.CodeIsExactly | packages/domain/src/crypto.ts:66-68 | a string is the code of a 20-byte MAC if and only if it is the last six decimal digits of that number |
| Totp.VerifyTotp | packages/domain/src/crypto.ts:71-78 | the loop accepts exactly the previous, current and next code, and fails below 30000 ms or on a bad secret |
| Totp.AcceptsExactly | packages/domain/src/crypto.ts:62-78 | what the check accepts is exactly the code of the MAC of the previous, current or next counter, written in 8 big-endian bytes |
| Totp.IssuedCodeIsAccepted | packages/domain/src/crypto.ts:62-78 | a code issued within one step of the check is accepted, and one two steps away has another counter window |
| LoginThrottle.Throttle.FailedLogin | packages/domain/src/auth.ts:55-89 | a failed login is refused while locked and otherwise counted, restarted or locked |
| LoginThrottle.FailureCountsExactly | packages/domain/src/auth.ts:79-89 | when a failure opens a new window, and that the twelfth of a window locks for a quarter of an hour |
| LoginThrottle.RefusedExactly | packages/domain/src/auth.ts:57-59 | after any attempts, a login is refused if and only if a twelfth failure is less than a quarter of an hour ago |
| LoginThrottle.AtMost22Failures | packages/domain/src/auth.ts:55-89 | in every sequential run no half-open quarter of an hour holds more than 22 failures |
| LoginThrottle.BoundIsReached | packages/domain/src/auth.ts:79-89 | a run that reaches 22 |
| Closure.NotFreeIsMonotone | packages/domain/src/closure-predicates.ts:311-316 | making more predicates true never turns a NOT-free expression false |
| Closure.PrintedListReadsBack | packages/domain/src/closure-predicates.ts:453-455 | a printed predicate list parses back to its conjunction if and only if it is not empty |
| Closure.ValidateReadsExactly | packages/domain/src/closure-predicates.ts:296-309 | the parser accepts exactly the JSON forms of expressions, each as its own, for every JSON value with distinct keys |
| Closure.NonObjectIsInvalid | packages/domain/src/closure-predicates.ts:299-300 | anything but an object is an invalid node, the empty object an unknown one |
| Closure.ComplementIsOpposite | packages/domain/src/closure-predicates.ts:311-316 | pushing a negation down to the predicates gives the opposite value |
| Closure.ReadEffectExactly | packages/domain/src/closure-predicates.ts:205 | which effects count as possible and which need a review |
| Closure.ManualIsCounted | packages/domain/src/closure-predicates.ts:206 | the review count is the number of effects that need one |
| Closure.ReadEffects | packages/domain/src/closure-predicates.ts:203-206 | the effects read and the review count that covers each of them |
| Closure.DefaultFilesystemInventory | packages/domain/src/closure-predicates.ts:363-375 | the inventory loop observes one path per artifact that has one |
| Closure.ObservedExactly | packages/domain/src/closure-predicates.ts:363-375 | the paths the inventory observes, and when with a digest |
| Closure.ArtifactIsClosedExactly | packages/domain/src/closure-predicates.ts:383 | when an artifact counts as closed, by its first observation |
| Closure.HoldsExactly | packages/domain/src/closure-predicates.ts:382-398 | each of the twelve predicates as a statement about the evidence |
| Closure.CountedExactly | packages/domain/src/closure-predicates.ts:401-431 | the orphan inventory reports each counted kind once, with its count, if there is any |
| Closure.ListedExactly | packages/domain/src/closure-predicates.ts:421-431 | and lists just the active processes, sockets and groups, the stray files and the effects under review |
| Closure.AllHoldLeavesNoOrphan | packages/domain/src/closure-predicates.ts:377-431 | with the default filesystem inventory and unique artifact ids, twelve true predicates leave the orphan inventory empty |
| Closure.PassedExactlyForAnyInventory | packages/domain/src/closure-predicates.ts:377-435 | for any filesystem inventory and a conjunction naming every predicate, passed holds exactly when all twelve do, the failure code is registered and every present file belongs to a published artifact |
| Closure.PassedExactly | packages/domain/src/closure-predicates.ts:399-435 | under the default inventory and unique ids the last condition is void: passed holds exactly when all twelve do and the failure code is the registered one |
| Closure.AccountsDisagreeExactly | packages/domain/src/closure-predicates.ts:379-400 | with all twelve true and the code registered, passed is false if and only if the inventory shows a present file of no published artifact |
| Closure.CustomInventoryMayDisagree | packages/domain/src/closure-predicates.ts:379 | a custom inventory with one unknown file breaks that agreement |

## Left out

- Frames are delivered at most once, late or never; duplicated ACTION frames are covered inside the host model only.
- Recovery of runs whose worker died between T1 and T2: no step moves them, so only safety is claimed.
- Page, frame, document, screenshot, download and upload rows, and every Playwright effect: an executed action is one event.
- The argument of `browser.action.start` that names a target reference is a flag, and the target's freshness checks are not modelled.
- Session handlers other than the modelled ones may rewrite a session in any way except for its fence counter.
- BrowserLease.BrowserSessionService.PrepareAttachment: which waiting session is tried is a parameter, since rows locked by others are skipped; that the oldest unlocked one is tried first is not stated.
- BrowserAction.BrowserActionStore.CommitT1: which queued run is picked is a parameter, and the verdicts of the target and upload checks are flags.
- SeccompFilter.ProgramDecidesPolicy: the high halves of arguments are never loaded by the filter and do not appear; installing the program is a kernel effect; beyond 220 list entries the 256-slot array itself overflows.
- LockOrder.WaitForIsAcyclic: a waiter queued behind another waiter is not an edge, one class and key is one resource, and what a query passed to `lockRowsOrdered` locks appears as the mode of the request, shared or exclusive.
- MigrationLedger.LedgerIsChainPrefix: all processes run the same list, versions are unique and the lease owners drawn at random are distinct; phase plans, fingerprints, evidence and the ledger's other states PLANNED and MANUAL_REVIEW are not modelled, since no statement of the command writes them.
- MonitorAlerts.QuerySelectsNewest: the database clock moves on between commands, so creation times of one scope are distinct; fingerprints are compared as the scopes they digest.
- Titles, details, severities, recommended actions, deliveries and evidence payloads of alerts.
- ComponentLifecycle.AuditStreamIsChain: one component with its stream; event keys contain the component or the operation identity, so streams of other components are not touched.
- Readiness gates, closure inventories of deregistration and state contracts appear as the answer they give.
- WorkspacePatch.AcceptedPatchHasInverse: revisions start empty, so every file was written by a patch; byte counts, tree digests and checkpoints are not modelled.
- AuditChain.HeadBindsHistory: event types are taken as their UTF-8 bytes; a hash that is injective on all strings cannot have 32-byte values, so the hypothesis is the absence of a collision between strings hashed at the same place.
- Base32.Base32Decode: upper-casing is ASCII; the letters outside ASCII that JavaScript maps into the alphabet are refused here.
- Totp.AcceptsExactly: counters fit in 8 bytes, which every ECMAScript time does, and a MAC has the 20 bytes of SHA-1.
- Totp.VerifyTotp: the counter is an integer quotient, without the rounding of the two floating-point divisions, and HMAC-SHA-1 is an arbitrary function.
- LoginThrottle.AtMost22Failures: one clock for check and record, logins of one address one after the other, no success in between.
- Closure.PassedExactly: JSON text is taken as its parsed tree with distinct keys; processes, sockets and cgroups are taken as probed.
- Closure.Passed: the report's digests and per-query evidence are not modelled.
- SHA-256, HMAC, AES-GCM, argon2, sockets, files, cgroups and namespaces: arbitrary functions or parameters.
- User interface, route tables, preview tickets, bindings, provenance, the wider generation phase machine and generation rollback: plumbing or easy members.
