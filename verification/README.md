# RedPath: a verified model

RedPath lets an untrusted planner propose an action, a human approve it, and a worker run it once. This project
models that protocol and the machinery around it in Dafny, and proves what the repository's design promises of it.
`dafny verify dfyconfig.toml` checks everything.

## What is modelled

**The guarded execution protocol** (`GuardedExecution` and its three companions, `FinalCheck`, `RowByRow`, `RunToEnd`,
`SessionCache`, `DecisionHistory`, `ClosedSession`, `ValidatedRuns`, `GuardedService`). Run, approve, reject, stop and
clear requests are served by any number of workers, each with a program counter, over a durable store, one database
write lock, and a volatile fence flag with its own lock. A run of the system is a sequence of moves: a worker's step, a request arriving,
time passing, a crash (which forgets the fence and the workers and keeps the store), or an adversary rewriting session,
target, proposal and policy rows and the name and arguments of action rows. The final check is nine separate reads through a database session that
keeps the rows it has. `GuardedService` holds the same handlers as statements over tables and a fence object. Claim,
decision and result are proved equal to the store transactions that the protocol's steps use, `TryStart` to the whole
final check, and `RunApprovedAction` puts them together; `RunToEnd` proves that the protocol's steps, undisturbed, come
to the end that this handler comes to. `SessionCache` shows what emptying the session before the final check is for, and
`ValidatedRuns` puts the program's own proposal validation into the protocol. `RowByRow` says column by column when a
decision, a claim and a start are allowed, and `DecisionHistory` proves that whatever was decided was allowed when it
was decided, and that what was approved can be run.

**The hash behind an approval** (`CanonicalJson`, `ApprovalHash`, `ApprovedCommand`). Canonical JSON text is written
and read back; equal texts mean equal values up to the order of dictionary members. SHA-256 itself is a tagged copy of
its input, which is exactly the collision freedom that is relied on.

**Shutdown and ownership** (`Operations`, `ProtectedOperations`, `DesktopHosts`, `DesktopGuard`). Workers, child
processes and concurrent reapers with address reuse; any number of desktop hosts of one user over one named mutex, each
with its server, its stop calls, its guard waiter and its release lock.

**The answer format and the pipeline behind it** (`JsonSchema`, `Recommendation`, `AnswerFormat`,
`AnswerFormatTheorems`, `Registry`, `ActionSpecs`, `CommandReader`, `RuleBasedFallback`). An interpreter for the JSON
Schema fragment, the schema compiler, the strict reader and checker, the registry, argv rendering with a reader of the
rendered commands, the runner's input checks and the deterministic fallback.

**Setup, capture, downloads, browser** (`SetupOperations`, `BoundedCapture`, `Downloads`, `BrowserWorkflows`,
`BrowserRuns`). Exclusive, cancellable repairs; the two-stream bounded capture; the verified download; and the two
browser workflows with replies that arrive in any order.

Modelling choices that hold throughout:

- Times are natural numbers on a clock that only moves on. Timeouts, failures of storage and of other processes are
  choices of the environment; an exception that nothing catches ends a worker and frees its locks.
- Parts that come from libraries are parameters: address parsing and printing, text decoding, the hash function of
  downloads. The protocol also takes proposal validation and the private-address test as parameters, and `ValidatedRuns`
  and `ApprovedCommand` put the program's own in their place. `content` of a proposal row stands for all columns and
  finding rows that validation reads.
- Denial events in the audit trail, and result columns other than the status, are not tracked.
- The adversary does not change the keys or the status of action rows, nor approvals, results and the stop row, which
  only the code writes.
- A stop row that was never written counts as an inactive row. Within one check the session keeps the stop row like any
  other; the program keeps no reference to it and may ask the store again, and while the fence is held the answer is the
  same.
- A result names the parser of its action, found by the name in the action row at that moment. The lookup raises for a
  name that is not registered, and nothing catches it: such a run records no outcome. The model makes the lookup in the
  step that takes the write lock for the result.
- Strings are sequences of Unicode scalar values. Service hints are lower-cased for ASCII letters.
- Python compares numbers loosely, so a stored 80 rewritten as 80.0 passes the final check. The model keeps this:
  `ApprovedCommand.DispatchIsExactIffItsNumbersAre` says exactly when a dispatch differs from what was approved, and
  `ApprovedCommand.CommandIsWhatWasApproved` that nothing is rendered from arguments that do.

## Model

| member | source | states |
|---|---|---|
| GuardedExecutionInvariants.StepKeepsInv | redpath/execution_api.py:232-459 | every step of every worker and of the environment keeps the whole protocol invariant: locks, decisions, claims, owners, lifecycle, the check's knowledge, starts and dispatches |
| GuardedExecutionInvariants.VerdictIsSound | redpath/execution_api.py:59-107 | when the last test of the final check passes, flag and stop row are clear and the grant's scope hashes to the hash of a live approved row of its own action |
| GuardedExecutionInvariants.ClaimKeepsClaims | redpath/execution_api.py:243-326 | a claim keeps: one action per approval, each action's approval marked used, each used approval with an action |
| GuardedExecutionInvariants.ReadKeepsCheck | redpath/execution_api.py:59-95 | each read of the check keeps what was read before, and the approval row it holds is the stored one |
| GuardedExecutionTheorems.RunKeepsInv | redpath/execution_api.py:232-459 | the invariant holds after every run, of any length and interleaving |
| GuardedExecutionTheorems.StartsCountGrants | redpath/execution_fence.py:28-35 | recorded starts are counted exactly by the steps in which `try_start` answers yes |
| GuardedExecutionTheorems.AtMostOneStart | redpath/execution_api.py:232-346 | over every run from an empty store each proposal, approval and action is started at most once and dispatched at most once, and only what was started is dispatched |
| GuardedExecutionTheorems.NoStartUnderFlag | redpath/execution_fence.py:16-35 | from a raised flag until a clear has committed and returned, or a crash, nothing starts |
| GuardedExecutionTheorems.StopEndsStarts | redpath/stop_api.py:52-73 | once a stop has entered the fence nothing starts, also when the stop itself then fails, until a clear has committed and returned or the process crashes |
| GuardedExecutionTheorems.NoStartUnderStopRow | redpath/stop_api.py:52-96 | while the committed stop row is active nothing starts, through any number of restarts |
| SessionCache.StartRowsAreRecent | redpath/execution_api.py:328-346 | over every run, each row behind a start, the stop row included, was stored at some moment since its worker took the fence, the fence was held from then to the start, and the rows say that session and target were live since then, the policy allows it, the approval is live and the action is running |
| SessionCache.UnemptiedSessionStarts | redpath/execution_api.py:330 | without emptying the session, a claimed run starts whatever its rows have been rewritten to in place: session closed, target locked or readdressed, approval rejected, action renamed |
| SessionCache.RunHasTrace | redpath/execution_api.py:232-459 | every run has the sequence of states that the theorem on recent rows speaks of |
| GuardedExecutionTheorems.DispatchIsWhatWasApproved | redpath/execution_api.py:390-415 | with a collision-free hash, what is dispatched has the session, target, canonical address, proposal and action of the scope hashed at approval, and arguments equal to its arguments, whatever rows were rewritten |
| GuardedExecutionTheorems.DecisionsAreFinal | redpath/approval_api.py:144-195 | a recorded decision never changes but for its use mark, which is never taken back |
| GuardedExecutionTheorems.DecisionsAreUniqueAndBounded | redpath/approval_api.py:144-270 | one decision per proposal; its expiry is at most the session's, the target's and fifteen minutes; every start is checked before the expiry of an approved decision |
| DecisionHistory.EveryDecisionWasAllowed | redpath/approval_api.py:202-274 | over every run, each decision in the store was recorded in one step that a request for it took, when its session was open, confirmed and unexpired, its target unlocked, unexpired and private, its proposal valid and undecided, and for an approval the newest policy allowed it and no stop was active; hash and expiry are of that moment |
| DecisionHistory.DecisionsAreAudited | redpath/approval_api.py:167-178 | in every reachable store the decision events are exactly those of the decisions there are |
| DecisionHistory.ApprovedActionCanRun | redpath/execution_api.py:236-415 | after an approval and any further run, with its rows and policy as they were, no action of its own, no stop and before its expiry, a new run request is claimed, granted and dispatched under it, whatever other actions there are |
| DecisionHistory.ApprovedActionCanRunAfterRestart | redpath/execution_fence.py:8-20 | after a restart the same holds whatever was locked or flagged before it, since the flag does not survive the process |
| RowByRow.ContextIsLive | redpath/approval_api.py:75-139 | the gates leave exactly the sessions, targets and proposals that are live column by column |
| RowByRow.DecidedExactly | redpath/approval_api.py:202-274 | a decision is allowed exactly for a live, undecided proposal, and an approval only with an allowing policy and no stop |
| RowByRow.ClaimedExactly | redpath/execution_api.py:236-301 | a claim is allowed exactly under a live, unused approval of these rows that has no action of its proposal or its own |
| RowByRow.StartedExactly | redpath/execution_api.py:59-107 | a start is allowed exactly for the running action of a used, live approval whose rows still say what it was bound to |
| RowByRow.OthersDoNotMatter | redpath/execution_api.py:236-301 | sessions, proposals, approvals and actions of others do not change whether a claim succeeds |
| GuardedExecutionTheorems.LifecycleIsConserved | redpath/execution_api.py:129-191 | used approvals are those with exactly one action; an action has left running exactly when it has its one result and one finish event of its status; it has one start event |
| GuardedExecutionTheorems.TerminalStatusIsFinal | redpath/execution_api.py:129-170 | a terminal status never changes |
| GuardedExecutionProgress.LockOrder | redpath/execution_api.py:236-346 | nobody holds the write lock while waiting for the fence, a dispatch holds neither lock, each lock has one holder |
| GuardedExecutionProgress.NoDeadlock | redpath/stop_api.py:41-96 | while a worker is neither finished nor in a dispatch, some worker has an enabled step of its own |
| GuardedExecutionProgress.WorkersTerminate | redpath/execution_api.py:236-459 | over every run, with time passing, rewriting and crashes anywhere, the workers take at most twenty steps for each worker there was or came |
| GuardedExecutionProgress.LocksCanBeFreed | redpath/execution_fence.py:12-35 | the holders free both locks by their own steps, and no other worker moves |
| GuardedExecutionProgress.StopCompletesDuringDispatches | redpath/stop_api.py:52-73 | from any reachable state a waiting stop commits with every dispatch in flight still in flight |
| GuardedExecutionProgress.ClearCommitsThenLowers | redpath/execution_fence.py:22-26 | a clear commits while the flag is as it was, and lowers it afterwards |
| GuardedExecutionProgress.ClearTakesFourSteps | redpath/stop_api.py:76-96 | a clear that nothing interrupts leaves row and flag down and both locks free |
| GuardedExecutionProgress.OutcomeIsStored | redpath/execution_api.py:129-191 | a waiting outcome is recorded as the action's status with exactly one more result and event if the action row has a registered name; under any other name the run ends with nothing written and the action running |
| GuardedExecutionProgress.RenamedDispatchIsLost | redpath/execution_api.py:408-459 | an action renamed during its dispatch, to a name without a parser, was dispatched and stays running without a result over every later run |
| GuardedExecutionTheorems.AbandonedStaysRunning | redpath/execution_api.py:129-191 | a running action that no worker has any more, after a lost outcome, a failed commit or a crash, never gets a result |
| FinalCheck.CheckAcceptsExactlyStartable | redpath/execution_api.py:59-107 | nine reads from an emptied session accept exactly the rows that one declarative condition accepts, and report a stop exactly when the row is active |
| FinalCheck.ClaimableRunIsDispatched | redpath/execution_api.py:236-415 | a run that can be claimed, undisturbed and with both locks free, is granted and dispatched |
| RunToEnd.ClaimedRunEnds | redpath/execution_api.py:328-459 | from every claim with both locks free, with and without a dispatcher, the protocol's steps come to the end the handler comes to: started exactly when the rows allow it, dispatched as granted, an overdue session marked, and the outcome recorded exactly if the action row has a registered name |
| RunToEnd.RenamedClaimIsLost | redpath/execution_api.py:347-388 | renaming a claimed action to an unregistered name keeps it from starting and leaves it running without a result |
| ValidatedRuns.EveryDispatchIsInRegistry | redpath/action_registry.py:95-119 | over every run with the program's validation, every dispatch names a registered action, and its hashed arguments have exactly that action's keys, with its values in range and its own target |
| ValidatedRuns.ProgramValidatesRegistered | redpath/action_registry.py:81-119 | validation of stored proposals lets only registered names pass |
| ClosedSession.NoStartInClosedSession | redpath/session_api.py:154-163 | whatever else is in flight, a start added while a session is closed is of another session or of an action whose check had read the session before |
| ClosedSession.LateCheckStartsAfterClose | redpath/session_api.py:154-163 | such a start does happen: a run whose check has read session and target starts in the session closed since |
| GuardedService.Database.ReadContext | redpath/approval_api.py:119-139 | the gates tried in order pass exactly the live rows, and give the decision context of the protocol |
| GuardedService.Database.FindApproval | redpath/execution_api.py:238-244 | finds the only approval of session, proposal and target, or there is none |
| GuardedService.Database.ClaimAction | redpath/execution_api.py:236-326 | claims exactly the approval that may be claimed by the rows, and then marks it, adds the action and its event and nothing else; else only an overdue session is marked |
| GuardedService.Database.RecordDecision | redpath/approval_api.py:202-274 | records exactly when the rows allow it, an approval only under an allowing policy and no stop, with the decision asked for; else only an overdue session is marked |
| GuardedService.Database.WriteDecision | redpath/approval_api.py:147-199 | the new row has the decision asked for, the hash of the rows as they are, and the least of the three expiries; one event, no other row |
| GuardedService.ApproveThenClaim | redpath/execution_api.py:236-326 | an approval followed by a run request before its expiry is claimed, when others leave the proposal's rows as they are |
| GuardedService.Database.PersistResult | redpath/execution_api.py:129-170 | status, result and event are stored together, which keeps the lifecycle of a running action |
| GuardedService.Database.RefuseOverdueSession | redpath/session_api.py:69-80 | marks exactly that session as expired if it is in a working state and has no expiry in the future, and no other row |
| GuardedService.StartOrCancel | redpath/execution_api.py:332-459 | starts exactly when the flag is down and the rows as they are now allow it; the outcome is recorded exactly if the action row has a registered name when the result is written, and otherwise nothing is |
| GuardedService.RunApprovedAction | redpath/execution_api.py:232-459 | from claim to result, whatever other transactions change between claim and check and between check and result: refused exactly when nothing can be claimed, started exactly when the changed rows allow it, recorded exactly if the action row still has a registered name at the end |
| GuardedService.ExecutionFence.Activate | redpath/execution_fence.py:16-20 | the flag is up afterwards whether or not the stop could be stored |
| GuardedService.ExecutionFence.Clear | redpath/execution_fence.py:22-26 | the flag goes down exactly when the clear was stored |
| GuardedService.ExecutionFence.TryStart | redpath/execution_fence.py:28-35 | refuses under the flag; otherwise, from an emptied session, allows exactly what may start, and raises the flag exactly on a stored stop |
| ProtectedRecord.MatchIsStoredIffExact | redpath/execution_api.py:88 | loaded arguments that compare equal to the validated ones are those stored exactly when their numbers are written as whole numbers |
| ProtectedRecord.MatchesIs | redpath/execution_api.py:88 | stored arguments match exactly when they have the same names, texts are equal, and a number is the same number in any form or the truth value for zero or one |
| ApprovedCommand.DispatchIsExactIffItsNumbersAre | redpath/execution_api.py:390-415 | of every dispatch of every run: its arguments are exactly the approved ones if and only if its numbers are whole numbers written as such |
| ApprovedCommand.RewrittenArgumentsAreDispatched | redpath/execution_api.py:88 | after a claim, any arguments that compare equal to the validated ones can be written into the action row and are dispatched as written |
| CanonicalJson.LoadsInvertsDumps | redpath/action_registry.py:132-142 | reading canonical text gives back the value written, up to member order, at any depth |
| CanonicalJson.OrderIsForgotten | redpath/action_registry.py:140-142 | values that differ only in member order have one text |
| CanonicalJson.CanonicalTextIsInjective | redpath/action_registry.py:132-142 | equal texts exactly for values equal up to member order |
| CanonicalJson.DumpsIsAscii | redpath/action_registry.py:140-142 | the text is printable ASCII, so its bytes are its characters |
| CanonicalJson.MembersAreWrittenInOrder | redpath/action_registry.py:140-142 | members are written in the order of their keys by code point |
| CanonicalJson.PlainTextStays | redpath/action_registry.py:140-142 | printable text without quotes and backslashes is written as it is |
| CanonicalJson.UnitsAreLowerCase | redpath/action_registry.py:140-142 | escaped code units have four lower-case hexadecimal digits |
| CanonicalJson.ReadInvertsEscapeAll | redpath/action_registry.py:140-142 | quoted text with the escapes of section 7 of RFC 8259, surrogate pairs included, reads back as itself |
| ApprovalHash.ProtectedTextIsInjective | redpath/action_registry.py:122-143 | two protected records have one text exactly when they are equal, in whatever order their arguments were inserted |
| ApprovalHash.ProtectedHashBinds | redpath/action_registry.py:122-143 | the hash does not depend on insertion order, and only equal records share it |
| ApprovalHash.DispatchMatchesApprovedText | redpath/action_registry.py:122-182 | with this hash every dispatch matches the approved record field by field, over every run |
| ApprovedCommand.CommandIsWhatWasApproved | redpath_kali/action_specs.py:67-108 | whatever command is rendered for a dispatch, its argv read back says exactly the approved action, address, port and time limit, and the runner takes it |
| ApprovedCommand.DispatchRendersExactly | redpath_kali/action_specs.py:61-108 | over every run with the program's validation and address test, a dispatch renders if and only if its numbers are whole numbers written as such, its target id has the fixed alphabet and its address no zone |
| ApprovedCommand.RenderedArgumentsAreExact | redpath_kali/action_specs.py:61-108 | only strings and whole numbers are rendered |
| Operations.PopRemovesWhatExited | redpath/operations.py:62-73 | the entry a reaper removes is the child it saw exited, however old its snapshot and however addresses are reused |
| Operations.ReapersNeverForget | redpath/operations.py:57-73 | over every run no child that has not exited leaves the table, so an empty table means all owned children exited |
| Operations.IdleForever | redpath/operations.py:49-89 | after closing admission, one moment without workers and children is followed only by such moments |
| Operations.IdleIsNotStableWhileAccepting | redpath/operations.py:30-39 | with admission open an idle moment need not last |
| Operations.CloseCancelsEveryWorker | redpath/operations.py:49-55 | after closing, every cancellable worker inside is cancelled, for the rest of the run |
| Operations.CancellableIsCancelled | redpath/operations.py:30-55 | a worker that asked for a cancel flag has one until it leaves, and it is set once admission is closed |
| ProtectedOperationsTracker.ProtectedOperations.Enter | redpath/operations.py:30-39 | admits exactly while accepting, with a fresh cancel flag if asked |
| ProtectedOperationsTracker.ProtectedOperations.Leave | redpath/operations.py:40-47 | removes the worker and the children known to have exited |
| ProtectedOperationsTracker.ProtectedOperations.CloseAdmission | redpath/operations.py:49-55 | refuses new workers and sets every cancel flag, changing nothing else |
| ProtectedOperationsTracker.ProtectedOperations.OwnChild | redpath/operations.py:57-60 | the child is in the table unless it has exited |
| ProtectedOperationsTracker.ProtectedOperations.ReapChildren | redpath/operations.py:62-73 | forgets exactly the children known to have exited |
| ProtectedOperationsTracker.ProtectedOperations.WaitIdle | redpath/operations.py:75-89 | answers yes exactly when no worker and no child is left |
| DesktopHosts.OneOwnerAtATime | redpath/windows_instance.py:75-95 | over any number of hosts and any interleaving one owns the mutex at most, storage is open under one at most, and a live server implies ownership |
| DesktopHosts.ReleaseIsSafeForever | redpath/desktop.py:196-233 | a host releases at most once, and from then on its server is dead, its engine disposed, no worker and no unexited child left |
| DesktopHosts.EarlyStopStillReleases | redpath/desktop.py:196-250 | after a stop that returned early, once server, workers and children are gone: on every schedule the threads take boundedly many steps, some thread can act until all have returned, and then the mutex has been released exactly once |
| DesktopHosts.StopInsideStartLosesTheGuard | redpath/desktop.py:155-222 | a stop in the middle of a start, with the mutex acquired or the application made, would release under a server about to run |
| DesktopHosts.LiveServerKeepsGuard | redpath/desktop.py:196-250 | once the server runs, no schedule of stops, interruptions and waiters gives the mutex up while it is alive |
| DesktopGuard.WindowsInstanceMutex.Acquire | redpath/windows_instance.py:75-90 | succeeds exactly when nobody has the name open; a loser leaves the open handles as they were |
| DesktopGuard.WindowsInstanceMutex.Release | redpath/windows_instance.py:92-95 | closes the own handle once and no other |
| DesktopGuard.DesktopHost.ReleaseInstance | redpath/desktop.py:224-233 | releases exactly when server and protected work are over, with the engine disposed; else changes nothing but reaped children |
| DesktopGuard.DesktopHost.RetainGuard | redpath/desktop.py:235-250 | starts a waiter exactly when there is a guard and no waiter yet |
| DesktopGuard.DesktopHost.Stop | redpath/desktop.py:196-222 | with the server, workers and children ending meanwhile: raises exactly when interrupted or when something is left alive, and then keeps the guard with a waiter; else gives up exactly its own handle |
| AnswerFormat.CollectProperties | redpath_ai/providers.py:246-257 | the inner loop gives the properties and required names of one action, or nothing when a required argument has no value |
| AnswerFormat.RecommendationSchema | redpath_ai/providers.py:163-275 | the two loops build the compiled format |
| AnswerFormatTheorems.ParseInvertsToJson | redpath_ai/schemas.py:111-135 | a well-formed step written out is read back unchanged |
| AnswerFormatTheorems.ReadsExactlyWritten | redpath_ai/schemas.py:11-135 | an answer is read as a step if and only if the step is well-formed and the answer, with the four defaults filled in, is that step written out: unknown fields, other types and a missing or false approval flag are refused |
| AnswerFormatTheorems.NamesAre | redpath_ai/schemas.py:56-70 | names are a lower-case letter followed by at most 63 lower-case letters, digits or underscores |
| AnswerFormatTheorems.LookupActionIs | redpath_ai/schemas.py:151-153 | of several offered actions with one name the last one counts |
| AnswerFormatTheorems.CheckedArgumentFitsRule | redpath_ai/providers.py:200-220 | an argument the checker accepts has a rule and fits it |
| AnswerFormatTheorems.RuleFitsCheck | redpath_ai/schemas.py:181-216 | an argument that fits its rule passes the checker when it is exact and cites its findings |
| AnswerFormatTheorems.CollectIs | redpath_ai/providers.py:245-262 | an offered action's properties are the rules of its constraints, by name, with its required names |
| AnswerFormatTheorems.CheckedStepIsAccepted | redpath_ai/providers.py:163-275 | every step the checks accept is accepted by the format compiled for that context |
| AnswerFormatTheorems.AcceptedAnswerIsChecked | redpath_ai/schemas.py:111-165 | every answer the format accepts is a well-formed step, and the checker accepts it exactly when its numbers are integers and its arguments cite its findings |
| AnswerFormatTheorems.FormatAgreesWithCheck | redpath_ai/schemas.py:137-165 | for written-out steps the checker is the format together with that condition |
| AnswerFormatTheorems.FloatPortSplitsThem | redpath_ai/schemas.py:181-216 | 80.0 is an integer to the format and not to the checker |
| JsonSchema.IntegersAreByValue | redpath_ai/providers.py:200-220 | an integer to the format is any number with a whole value within the bounds, however it is written |
| Registry.ValidationIsStable | redpath/action_registry.py:95-119 | a validated proposal validates to itself and keeps the arguments it was given |
| Registry.ValidatesExactly | redpath/action_registry.py:95-119 | a proposal passes exactly with a registered action, that action's keys with values in range, the session's target and known findings, and is unchanged but for a default of five seconds |
| Registry.CheckedStepBecomesProposal | redpath/session_api.py:288-298 | for the registered actions every checked action step becomes a proposal |
| Registry.LookupRegistered | redpath/action_registry.py:47-79 | exactly the three registered names are found, each with its constraints |
| ActionSpecs.AddressTestsAgree | redpath/session_api.py:107-120 | the session's and the renderer's address tests accept the same zone-free texts and agree on the address |
| ActionSpecs.PrivateTargetsAre | redpath/session_api.py:107-120 | the addresses accepted are exactly those in 10.0.0.0/8, 172.16.0.0/12, 192.168.0.0/16 and fc00::/7, by network part |
| ActionSpecs.RendersExactly | redpath_kali/action_specs.py:42-91 | the renderer takes exactly the three actions with their own keys, values in range, the authorized target id of the fixed alphabet and a private address without a zone |
| ActionSpecs.RenderedCommandReads | redpath_kali/action_specs.py:92-108 | the argv read back runs the named action on the authorized address and port, with the asked or the default time limit, five seconds below the limit of the process |
| ActionSpecs.RunnerTakes | redpath_setup/wsl.py:388-402 | the runner takes any argv of non-empty texts without NUL, for one to sixty seconds |
| ActionSpecs.RenderedActionRuns | redpath_setup/wsl.py:388-402 | a rendered action passes the runner's argv and timeout checks, and its argv goes to the authorized address and port |
| ActionSpecs.AcceptedProposalRenders | redpath_kali/action_specs.py:67-108 | every proposal accepted at the provider boundary renders, passes the runner's checks, and its argv read back goes to the session's address and the port of a cited finding |
| RuleBasedFallback.CollectArguments | redpath_ai/providers.py:90-110 | the inner loop gives every known argument, or nothing when a required one is not known |
| RuleBasedFallback.RecommendNextStep | redpath_ai/providers.py:81-120 | with the registered actions, asks for more evidence exactly when no finding has one of the four services; else cites the usable finding of least id and proposes the action of its service on its port |
| RuleBasedFallback.RecommendsTheFirstUsable | redpath_ai/providers.py:68-120 | headers for http, the certificate for https and ssl, a connection check for ssh, in any letter case, for the first usable finding in id order |
| RuleBasedFallback.FilledArgumentsAre | redpath_ai/providers.py:90-110 | arguments are found exactly when every required one is of a known kind, and each is what is known for its kind |
| RuleBasedFallback.FallbackIgnoresOrder | redpath_ai/providers.py:81-120 | the order of findings does not matter when ids are unique |
| RuleBasedFallback.FallbackNeverRaises | redpath_ai/providers.py:81-120 | for the registered actions the step is well-formed, passes the checks, and becomes a proposal if it is an action |
| RuleBasedFallback.StepPassesIffPortIsLast | redpath_ai/schemas.py:137-165 | for the registered actions, the step built for a finding passes its own validation if and only if the last finding with that id has the same port |
| RuleBasedFallback.FallbackRaisesExactlyOnSharedId | redpath_ai/providers.py:81-120 | so the fallback raises if and only if the finding it chooses shares its id with a later one on another port |
| TextOrder.SortForgetsOrder | redpath_ai/providers.py:82 | sorting by a unique key gives one list for every order of the items |
| TextOrder.AtMostIs | redpath_ai/providers.py:82 | texts are ordered by prefix, and else by the first code point in which they differ |
| SetupOperations.SetupOperationController.Begin | redpath/setup_api.py:47-53 | begins exactly when the lock is free, and becomes the active operation |
| SetupOperations.SetupOperationController.Complete | redpath/setup_api.py:55-70 | reports the event and ends the active operation only if it is its own |
| SetupOperations.SetupOperationController.Cancel | redpath/setup_api.py:76-81 | answers yes exactly for the active component and then sets that event |
| SetupOperations.RepairsAreExclusiveAndHonest | redpath/setup_api.py:39-81 | over every run one repair at most is in its critical part; a finished one learned of a cancel exactly when it was cancelled or a shutdown found it inside, and then reports a cancellation in place of ready; every other one reports how its work ended |
| SetupOperations.CancelIsHonoured | redpath/setup_api.py:154-174 | a cancel that answered yes makes that generation's completion say so and its report not ready |
| SetupOperations.ShutdownIsHonoured | redpath/setup_api.py:154-174 | a shutdown that finds a repair inside suppresses ready in the same way |
| SetupOperations.LateCompleteChangesNothing | redpath/setup_api.py:55-74 | a late completion frees no lock and ends no later generation |
| SetupOperations.UncancelledReportsItsWork | redpath/setup_api.py:154-174 | without a cancel or shutdown the report is what the work gave, and the controller is free |
| BoundedCapture.AbsorbExtendsCapture | redpath_setup/wsl.py:94-97 | keeping chunk by chunk is the capture of the whole, however it was cut |
| BoundedCapture.BoundedDrain.ReadStream | redpath_setup/wsl.py:88-107 | keeps exactly the first 32768 bytes, marks truncation exactly beyond them, and records every failure |
| BoundedCapture.ReturnedTextIsComplete | redpath_setup/wsl.py:114-159 | a result is returned only after both readers met the end without failure, and holds the captures of the whole streams |
| BoundedCapture.AcceptedOutputIsWhole | redpath_setup/wsl.py:226-240 | output accepted as complete is the whole of both streams |
| BoundedCapture.WholeOutputMayBeRefused | redpath_setup/wsl.py:236-240 | short output is refused exactly when it itself ends in the mark |
| Downloads.DownloadVerified | redpath_setup/downloads.py:189-253 | publishes exactly when nothing went wrong, and else raises the first thing that did, an unforeseen failure as a cancellation if the event is set; the destination then holds the pinned bytes, or the directory is as it was but for a temporary file that could not be removed; progress strictly increases |
| Downloads.Transfer.Stream | redpath_setup/downloads.py:219-232 | file, hash and count agree throughout and are those of all bytes received when nothing went wrong; else the first trouble ends it |
| Downloads.PublishedUncancelled | redpath_setup/downloads.py:55-61 | nothing is published when any look saw a cancel, and the last look sees every earlier cancel |
| BrowserWorkflows.ProposalWorkflow.Decide | frontend/recommendation.js:210-220 | sends exactly for a pending, idle proposal, and an approval only with the stop not active |
| BrowserWorkflows.ProposalWorkflow.DecisionArrives | frontend/recommendation.js:221-248 | takes the reply exactly for the generation and proposal it was sent for; then rejected, expired or approved by the receipt's expiry, failed without a good receipt, and available exactly if approved with the stop known to be clear |
| BrowserWorkflows.ProposalWorkflow.AskToRun | frontend/recommendation.js:257-266 | asks only for the loaded, approved, unexpired proposal with the stop known to be clear, and what it shows stays good until it expires if nothing changes |
| BrowserWorkflows.ProposalWorkflow.Run | frontend/recommendation.js:267-273 | sends exactly when what was confirmed is still what is loaded and approved |
| BrowserWorkflows.ProposalWorkflow.RunArrives | frontend/recommendation.js:274-281 | what is loaded is over or failed, and not available |
| BrowserWorkflows.ProposalWorkflow.RefreshExpiry | frontend/recommendation.js:250-255 | expires exactly an approval whose time is up |
| BrowserWorkflows.ProposalWorkflow.LoadRecommendation | frontend/recommendation.js:190-208 | a new generation without a receipt, that nothing can run and that can be decided exactly if policy allowed it |
| BrowserWorkflows.ProposalWorkflow.SetEmergencyStop | frontend/recommendation.js:284-296 | afterwards a run is available exactly under a current approval, so never unless the stop is confirmed clear; decision and receipt are untouched |
| BrowserWorkflows.EmergencyStopWorkflow.Click | frontend/oversight.js:165-201 | a request is sent one at a time and treats the stop as active until it is answered |
| BrowserWorkflows.EmergencyStopWorkflow.AnswerArrives | frontend/oversight.js:165-207 | only a confirmed clear answer makes the stop clear, and the proposal workflow knows it at once |
| BrowserRuns.BrowserSendsAtMostOnce | frontend/recommendation.js:103-301 | over every order of clicks and replies one decision and one run at most per generation; runs only with the stop clear, under an unexpired receipt of the loaded proposal, decided in that generation |
| BrowserRuns.DecisionReplyIsTakenUnlessLoaded | frontend/recommendation.js:210-248 | over every run of events after a decision was sent, its reply is taken exactly if no recommendation arrived in between, and else changes nothing |
| BrowserRuns.RunReplyMeetsItsOwnUnlessLoaded | frontend/recommendation.js:257-281 | over every run of events after a run was sent, its reply meets its own proposal exactly if no recommendation arrived in between |
| BrowserRuns.UnrunProposalIsEnded | frontend/app.js:362-374 | the other case happens: from a browser just opened, the reply to a run of one proposal ends the next one, which was never decided on or run |

## Left out

- BrowserRuns.RunReplyMeetsItsOwnUnlessLoaded: does not promise that a run's reply leaves a later generation alone; run replies have no generation check, and `BrowserRuns.UnrunProposalIsEnded` gives the events.
- GuardedService.RunApprovedAction: does not promise that every claimed run has its outcome recorded, because the code does not do it for an action renamed to an unregistered name; `RunToEnd.RenamedClaimIsLost` and `GuardedExecutionProgress.RenamedDispatchIsLost` give the runs.
- ClosedSession.NoStartInClosedSession: does not claim that nothing starts once a close has committed; closing a session does not enter the fence, and `ClosedSession.LateCheckStartsAfterClose` gives the run.
- GuardedExecutionTheorems.TerminalStatusIsFinal: does not promise that every claim becomes terminal, because a failed commit, a crash after the claim or a renamed action row leaves an action running with no recovery code; `GuardedExecutionTheorems.AbandonedStaysRunning` says so.
- Downloads.Fetch: the temporary file appears in the directory when the stream has ended, not while it grows.
- HTTP routing, request and response validation, row mapping, TLS, sockets, name resolution, subprocess and Win32 calls, window and DOM rendering are steps of the environment or abstract relations.
- Starting a host concurrently with stopping it: one thread calls both, and `DesktopHosts.StopInsideStartLosesTheGuard` shows why that matters. The engine disposal that the server itself performs on its way out is not modelled.
- Closing the browser's confirmation dialogue is an event of its own, although the browser blocks while it is open.
- Sorting and removing duplicates in enumerated schema values; enumerations are compared as sets of values.
- Zone identifiers of IPv6 literals, and strings with lone surrogates.
- Finding, proposal and lesson fields that only travel through, and explanations of results.
- The setup page of the browser, where cancelling clears the busy flag before the repair has ended.
- TLS evidence meeting its response contract, which the extractors do not guarantee in the letter case.
- Lessons, learning notes, audit redaction, report assembly, settings, migrations, the VM wrapper, the lab scanner and scan import.
