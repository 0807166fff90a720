/** What every step of the guarded execution protocol keeps. */
module GuardedExecutionInvariants {
  import opened Wrappers
  import opened ProtectedRecord
  import opened GuardedExecution

  // ---------------------------------------------------------------- locks and roles

  /** A lock names exactly the worker whose program counter holds it. */
  ghost predicate Locks(s: State) {
    && (forall w: nat | w < |s.workers| :: HoldsWrite(s.workers[w].pc) <==> s.writeLock == Some(w))
    && (forall w: nat | w < |s.workers| :: HoldsFence(s.workers[w].pc) <==> s.fenceLock == Some(w))
    && (s.writeLock.Some? ==> s.writeLock.value < |s.workers|)
    && (s.fenceLock.Some? ==> s.fenceLock.value < |s.workers|)
  }

  predicate OwnsAction(pc: Pc) {
    || pc.Claimed? || pc.AwaitFence? || InCheck(pc) || pc.Granted? || pc.Dispatching?
    || pc.AwaitPersist? || pc.Persisting?
  }

  predicate InCheck(pc: Pc) {
    pc.Checking? || pc.CheckAwaitWrite? || pc.CheckWriting?
  }

  predicate BeforeStart(pc: Pc) {
    pc.Claimed? || pc.AwaitFence? || InCheck(pc)
  }

  predicate RoleOk(worker: Worker) {
    && (OwnsAction(worker.pc) ==> worker.job.RunJob?)
    && (worker.pc.InTransaction? ==> worker.job.RunJob? || worker.job.DecideJob?)
    && (worker.pc.StopFenced? || worker.pc.StopWriting? ==> worker.job.StopJob?)
    && (worker.pc.ClearFenced? || worker.pc.ClearWriting? || worker.pc.ClearCommitted? ==> worker.job.ClearJob?)
    && (worker.pc.Granted? || worker.pc.Dispatching? ==>
          worker.grant.Some? && worker.grant.value.actionId == worker.actionId)
    && (worker.pc.AwaitPersist? || worker.pc.Persisting? ==> worker.outcome != Running)
  }

  ghost predicate Roles(s: State) {
    forall w: nat | w < |s.workers| :: RoleOk(s.workers[w])
  }

  // ---------------------------------------------------------------- the stop

  /** Inside the check the fence flag is down; after the stop row was read, the row that the session
      keeps is clear and so is the stored one; and before that read the session holds no row at all. */
  predicate StopOk(s: State, worker: Worker) {
    && (InCheck(worker.pc) ==> !s.stopped)
    && (worker.pc.Checking? && worker.pc.phase != StopRead ==> !s.store.stop && worker.cache.stop == Some(false))
    && (worker.pc == AwaitFence || worker.pc == Checking(StopRead) ==> worker.cache == EMPTY_CACHE)
  }

  ghost predicate StopSeen(s: State) {
    forall w: nat | w < |s.workers| :: StopOk(s, s.workers[w])
  }

  // ---------------------------------------------------------------- decisions

  predicate DecisionOk(rules: Rules, row: ApprovalRow, record: DecisionRecord, now: Time) {
    && row.protectedHash == rules.hash(record.scope)
    && record.scope.sessionId == row.sessionId
    && record.scope.proposalId == row.proposalId
    && record.scope.targetId == row.targetId
    && row.expiresAt == Min(record.sessionExpiry, Min(record.targetExpiry, record.at + APPROVAL_TTL))
    && record.at <= now
  }

  ghost predicate Decisions(rules: Rules, s: State) {
    && (forall k <- s.store.approvals ::
          k in s.decided && DecisionOk(rules, s.store.approvals[k], s.decided[k], s.clock))
    && (forall k, l | k in s.store.approvals && l in s.store.approvals
          && s.store.approvals[k].proposalId == s.store.approvals[l].proposalId :: k == l)
  }

  // ---------------------------------------------------------------- claims

  predicate ClaimOk(store: Store, action: ActionRow) {
    && action.approvalId in store.approvals
    && store.approvals[action.approvalId].used
    && store.approvals[action.approvalId].sessionId == action.sessionId
    && store.approvals[action.approvalId].proposalId == action.proposalId
  }

  ghost predicate HasAction(store: Store, approvalId: Id) {
    exists a :: a in store.actions && store.actions[a].approvalId == approvalId
  }

  ghost predicate Claims(store: Store) {
    && (forall a <- store.actions :: ClaimOk(store, store.actions[a]))
    && (forall a, b | a in store.actions && b in store.actions
          && store.actions[a].approvalId == store.actions[b].approvalId :: a == b)
    && (forall k <- store.approvals :: store.approvals[k].used ==> HasAction(store, k))
  }

  predicate OwnerOk(store: Store, worker: Worker) {
    OwnsAction(worker.pc) ==>
      && worker.job.RunJob?
      && worker.actionId in store.actions
      && store.actions[worker.actionId].approvalId == worker.approvalId
      && store.actions[worker.actionId].sessionId == worker.job.sessionId
      && store.actions[worker.actionId].proposalId == worker.job.proposalId
      && store.actions[worker.actionId].status == Running
  }

  ghost predicate Owners(s: State) {
    && (forall w: nat | w < |s.workers| :: OwnerOk(s.store, s.workers[w]))
    && (forall v: nat, w: nat | v < |s.workers| && w < |s.workers| && v != w
          && OwnsAction(s.workers[v].pc) && OwnsAction(s.workers[w].pc) ::
          s.workers[v].actionId != s.workers[w].actionId)
  }

  // ---------------------------------------------------------------- lifecycle

  function Recorded(store: Store, a: Id, status: ActionStatus): nat {
    if a in store.actions && status != Running && store.actions[a].status == status then 1 else 0
  }

  ghost predicate Lifecycle(store: Store) {
    && (forall a, status :: store.results[ResultRow(a, status)] == Recorded(store, a, status))
    && (forall a, status :: store.audit[ActionFinished(a, status)] == Recorded(store, a, status))
    && (forall a :: store.audit[ActionStarted(a)] == if a in store.actions then 1 else 0)
  }

  // ---------------------------------------------------------------- the final check

  predicate PastApproval(phase: Phase) {
    phase == PolicyRead || phase == StopReread || phase == Verdict
  }

  predicate Matched(rules: Rules, worker: Worker) {
    && worker.job.RunJob?
    && worker.cache.target.Some? && worker.cache.proposal.Some? && worker.cache.approval.Some?
    && var validated := rules.validate(worker.cache.proposal.value.content, worker.cache.target.value.id);
    && validated.Some?
    && ClaimStillMatches(worker, validated.value, worker.cache)
  }

  predicate CheckOk(rules: Rules, store: Store, worker: Worker) {
    && (worker.pc.Checking? && PastApproval(worker.pc.phase) ==>
          && worker.approvalId in store.approvals
          && worker.cache.approval == Some(store.approvals[worker.approvalId]))
    && (worker.pc.Checking? && !PastApproval(worker.pc.phase) ==> worker.cache.approval.None?)
    && (worker.pc.Checking? && worker.pc.phase in {StopReread, Verdict} ==> Matched(rules, worker))
  }

  ghost predicate Checks(rules: Rules, s: State) {
    forall w: nat | w < |s.workers| :: CheckOk(rules, s.store, s.workers[w])
  }

  // ---------------------------------------------------------------- starts and dispatches

  predicate StartOk(rules: Rules, store: Store, grant: Grant) {
    && grant.actionId in store.actions
    && store.actions[grant.actionId].approvalId == grant.approvalId
    && store.actions[grant.actionId].proposalId == grant.proposalId
    && grant.approvalId in store.approvals
    && store.approvals[grant.approvalId].decision == Approved
    && store.approvals[grant.approvalId].expiresAt > grant.checkedAt
    && store.approvals[grant.approvalId].protectedHash == rules.hash(GrantScope(rules, grant))
    && Matches(grant.arguments, grant.checked)
  }

  ghost predicate Absent(grants: seq<Grant>, actionId: Id) {
    forall i | 0 <= i < |grants| :: grants[i].actionId != actionId
  }

  ghost predicate DistinctActions(grants: seq<Grant>) {
    forall i, j | 0 <= i < j < |grants| :: grants[i].actionId != grants[j].actionId
  }

  ghost predicate StartsOk(rules: Rules, s: State) {
    && (forall i | 0 <= i < |s.starts| :: StartOk(rules, s.store, s.starts[i]))
    && DistinctActions(s.starts)
    && (forall w: nat | w < |s.workers| && BeforeStart(s.workers[w].pc) :: Absent(s.starts, s.workers[w].actionId))
  }

  ghost predicate DispatchesOk(s: State) {
    && (forall i | 0 <= i < |s.dispatches| :: s.dispatches[i] in s.starts)
    && DistinctActions(s.dispatches)
    && (forall w: nat | w < |s.workers| && (BeforeStart(s.workers[w].pc) || s.workers[w].pc.Granted?) ::
          Absent(s.dispatches, s.workers[w].actionId))
    && (forall w: nat | w < |s.workers| && s.workers[w].pc.Granted? ::
          s.workers[w].grant.Some? && s.workers[w].grant.value in s.starts)
  }

  ghost predicate Inv(rules: Rules, s: State) {
    && Locks(s) && Roles(s) && StopSeen(s)
    && Decisions(rules, s) && Claims(s.store) && Owners(s) && Lifecycle(s.store)
    && Checks(rules, s) && StartsOk(rules, s) && DispatchesOk(s)
  }

  // ---------------------------------------------------------------- the shape of a worker's step

  /** A claimed run outside its check and its commits. */
  predicate IsUnderway(pc: Pc) {
    pc.Claimed? || pc.AwaitFence? || pc.Granted? || pc.CheckAwaitWrite? || pc.AwaitPersist?
  }

  /** The worker's next step commits a transaction. */
  predicate Commits(pc: Pc) {
    pc.CheckWriting? || pc.Persisting? || pc.StopWriting? || pc.ClearWriting?
  }

  predicate LockEffect(held: bool, holds: bool, before: Option<nat>, after: Option<nat>, w: nat) {
    if holds then after == Some(w) && (held || before.None?)
    else if held then after.None? else after == before
  }

  ghost predicate OnlyWorker(s: State, t: State, w: nat) {
    && w < |s.workers| == |t.workers|
    && (forall v: nat | v < |s.workers| && v != w :: t.workers[v] == s.workers[v])
  }

  /** Worker `w` moved: how its locks, its role and what it knows of the stop may change. */
  ghost predicate Effect(s: State, t: State, w: nat) {
    && OnlyWorker(s, t, w)
    && LockEffect(HoldsWrite(s.workers[w].pc), HoldsWrite(t.workers[w].pc), s.writeLock, t.writeLock, w)
    && LockEffect(HoldsFence(s.workers[w].pc), HoldsFence(t.workers[w].pc), s.fenceLock, t.fenceLock, w)
    && t.workers[w].job == s.workers[w].job
    && RoleOk(t.workers[w])
    && StopOk(t, t.workers[w])
    && (t.stopped != s.stopped || t.store.stop != s.store.stop ==>
          HoldsFence(s.workers[w].pc) || s.fenceLock.None?)
    && t.clock == s.clock
  }

  /** The worker goes on with the action it has; it cannot return to before its start. */
  ghost predicate Continues(s: State, t: State, w: nat) {
    && OnlyWorker(s, t, w)
    && t.workers[w].job == s.workers[w].job
    && t.workers[w].actionId == s.workers[w].actionId
    && t.workers[w].approvalId == s.workers[w].approvalId
    && (OwnsAction(t.workers[w].pc) ==> OwnsAction(s.workers[w].pc))
    && (BeforeStart(t.workers[w].pc) ==> BeforeStart(s.workers[w].pc))
    && t.clock == s.clock
  }

  predicate SameRecords(s: State, t: State) {
    && t.store.approvals == s.store.approvals && t.store.actions == s.store.actions
    && t.store.results == s.store.results && t.store.audit == s.store.audit
    && t.decided == s.decided
  }

  predicate SameHistory(s: State, t: State) {
    t.starts == s.starts && t.dispatches == s.dispatches
  }

  ghost predicate Quiet(s: State, t: State, w: nat) {
    Effect(s, t, w) && Continues(s, t, w) && SameRecords(s, t)
  }

  ghost predicate Control(s: State) {
    Locks(s) && Roles(s) && StopSeen(s)
  }

  // ---------------------------------------------------------------- each step has that shape

  lemma TransactionBegins(s: State, w: nat)
    requires Control(s) && CanAdvance(s, w) && s.workers[w].pc.Begin?
    requires s.workers[w].job.RunJob? || s.workers[w].job.DecideJob?
    ensures Quiet(s, BeginStep(s, w), w) && SameHistory(s, BeginStep(s, w))
  {
  }

  lemma FenceBegins(s: State, w: nat)
    requires Control(s) && CanAdvance(s, w) && s.workers[w].pc.Begin?
    requires s.workers[w].job.StopJob? || s.workers[w].job.ClearJob?
    ensures Quiet(s, BeginStep(s, w), w) && SameHistory(s, BeginStep(s, w))
  {
  }

  lemma BeginEffect(s: State, w: nat)
    requires Control(s) && CanAdvance(s, w) && s.workers[w].pc.Begin?
    ensures Quiet(s, BeginStep(s, w), w) && SameHistory(s, BeginStep(s, w))
  {
    if s.workers[w].job.StopJob? || s.workers[w].job.ClearJob? {
      FenceBegins(s, w);
    } else {
      TransactionBegins(s, w);
    }
  }

  lemma ExpireEffect(s: State, w: nat)
    requires Control(s) && CanAdvance(s, w) && s.workers[w].pc.Claimed?
    ensures Quiet(s, ExpireStep(s, w), w) && SameHistory(s, ExpireStep(s, w))
  {
  }

  lemma FenceEffect(s: State, w: nat)
    requires Control(s) && CanAdvance(s, w) && s.workers[w].pc.AwaitFence?
    ensures Quiet(s, FenceStep(s, w), w) && SameHistory(s, FenceStep(s, w))
  {
  }

  lemma LeaveCheckEffect(s: State, w: nat)
    requires Control(s) && Valid(s, w) && (s.workers[w].pc.Checking? || s.workers[w].pc.CheckAwaitWrite?)
    ensures Quiet(s, LeaveCheck(s, w), w) && SameHistory(s, LeaveCheck(s, w))
    ensures Quiet(s, LeaveCheck(s, w).(stopped := true), w) && SameHistory(s, LeaveCheck(s, w).(stopped := true))
  {
  }

  lemma ReadEffect(rules: Rules, s: State, t: State, w: nat)
    requires Control(s) && CanAdvance(s, w) && s.workers[w].pc.Checking? && ReadsOn(rules, s, t, w)
    ensures Quiet(s, t, w) && SameHistory(s, t)
  {
  }

  lemma CheckWriteRequested(s: State, w: nat, marks: bool)
    requires Control(s) && Valid(s, w) && s.workers[w].pc.Checking?
    ensures var t := MoveTo(s, w, CheckAwaitWrite(marks)); Quiet(s, t, w) && SameHistory(s, t)
  {
  }

  lemma CheckEffect(rules: Rules, s: State, w: nat)
    requires Control(s) && CanAdvance(s, w) && s.workers[w].pc.Checking?
    requires CheckStep(rules, s, w).starts == s.starts
    ensures Quiet(s, CheckStep(rules, s, w), w) && SameHistory(s, CheckStep(rules, s, w))
  {
    var t := CheckStep(rules, s, w);
    CheckStepShape(rules, s, w);
    if ReadsOn(rules, s, t, w) {
      ReadEffect(rules, s, t, w);
    } else {
      LeaveCheckEffect(s, w);
      CheckWriteRequested(s, w, true);
      CheckWriteRequested(s, w, false);
    }
  }

  lemma GrantEffect(rules: Rules, s: State, w: nat)
    requires Control(s) && Valid(s, w) && s.workers[w].pc.Checking? && CanGrant(rules, s.workers[w])
    ensures Quiet(s, GrantStep(rules, s, w), w)
  {
  }

  lemma TakeWriteEffect(s: State, w: nat, pc: Pc)
    requires Control(s) && CanAdvance(s, w)
    requires match s.workers[w].pc
      case CheckAwaitWrite(marks) => pc == CheckWriting(marks)
      case AwaitPersist => pc == Persisting
      case StopFenced => pc == StopWriting
      case ClearFenced => pc == ClearWriting
      case _ => false
    ensures Quiet(s, TakeWrite(s, w, pc), w) && SameHistory(s, TakeWrite(s, w, pc))
  {
  }

  lemma CheckWriteEffect(s: State, w: nat)
    requires Control(s) && CanAdvance(s, w) && s.workers[w].pc.CheckWriting?
    ensures Quiet(s, CheckWriteStep(s, w), w) && SameHistory(s, CheckWriteStep(s, w))
  {
  }

  lemma DispatchEffect(s: State, w: nat)
    requires Control(s) && CanAdvance(s, w) && s.workers[w].pc.Granted?
    ensures Quiet(s, DispatchStep(s, w), w)
  {
  }

  lemma PersistEffect(s: State, w: nat)
    requires Control(s) && CanAdvance(s, w) && s.workers[w].pc.Persisting?
    ensures Effect(s, PersistStep(s, w), w) && Continues(s, PersistStep(s, w), w) && SameHistory(s, PersistStep(s, w))
  {
  }

  lemma StopEffect(s: State, w: nat)
    requires Control(s) && CanAdvance(s, w)
    ensures s.workers[w].pc.StopWriting? ==> Quiet(s, StopStep(s, w), w) && SameHistory(s, StopStep(s, w))
    ensures s.workers[w].pc.ClearWriting? ==> Quiet(s, ClearStep(s, w), w) && SameHistory(s, ClearStep(s, w))
    ensures s.workers[w].pc.ClearCommitted? ==> Quiet(s, ClearDoneStep(s, w), w) && SameHistory(s, ClearDoneStep(s, w))
  {
  }

  lemma ClaimEffect(rules: Rules, s: State, w: nat, k: Id, a: Id)
    requires Control(s) && Enabled(rules, s, Claim(w, k, a))
    ensures Effect(s, ClaimStep(rules, s, w, k, a), w) && SameHistory(s, ClaimStep(rules, s, w, k, a))
  {
  }

  lemma DecideEffect(rules: Rules, s: State, w: nat, k: Id)
    requires Control(s) && Enabled(rules, s, Decide(w, k))
    ensures var t := DecideStep(rules, s, w, k); Effect(s, t, w) && Continues(s, t, w) && SameHistory(s, t)
  {
  }

  lemma RefuseEffect(s: State, w: nat)
    requires Control(s) && (InRunTransaction(s, w) || InDecideTransaction(s, w))
    ensures Quiet(s, RefuseStep(s, w), w) && SameHistory(s, RefuseStep(s, w))
  {
  }

  lemma ReturnEffect(s: State, w: nat, status: ActionStatus)
    requires Control(s) && Valid(s, w) && (s.workers[w].pc.Dispatching? || s.workers[w].pc.Granted?)
    requires status != Running
    ensures Quiet(s, ReturnStep(s, w, status), w) && SameHistory(s, ReturnStep(s, w, status))
  {
  }

  lemma AbortEffect(s: State, w: nat)
    requires Control(s) && Valid(s, w) && !s.workers[w].pc.Finished?
    ensures Quiet(s, AbortStep(s, w), w) && SameHistory(s, AbortStep(s, w))
  {
  }

  // ---------------------------------------------------------------- the shape keeps the invariants

  lemma ControlFromEffect(s: State, t: State, w: nat)
    requires Control(s) && Effect(s, t, w)
    ensures Control(t)
  {
  }

  /** The records and who owns them. */
  ghost predicate Data(rules: Rules, s: State) {
    Decisions(rules, s) && Claims(s.store) && Owners(s) && Lifecycle(s.store)
  }

  lemma OwnersFromContinues(s: State, t: State, w: nat)
    requires Owners(s) && Continues(s, t, w) && t.store.actions == s.store.actions
    ensures Owners(t)
  {
  }

  lemma DataFromQuiet(rules: Rules, s: State, t: State, w: nat)
    requires Data(rules, s) && Quiet(s, t, w)
    ensures Data(rules, t)
  {
    OwnersFromContinues(s, t, w);
    forall k <- t.store.approvals ensures t.store.approvals[k].used ==> HasAction(t.store, k) {
      assert s.store.approvals[k].used ==> HasAction(s.store, k);
    }
  }

  lemma ChecksFromQuiet(rules: Rules, s: State, t: State, w: nat)
    requires Checks(rules, s) && Quiet(s, t, w) && CheckOk(rules, t.store, t.workers[w])
    ensures Checks(rules, t)
  {
  }

  lemma HistoryFromQuiet(rules: Rules, s: State, t: State, w: nat)
    requires StartsOk(rules, s) && DispatchesOk(s) && Quiet(s, t, w) && SameHistory(s, t)
    requires t.workers[w].pc.Granted? ==> s.workers[w].pc.Granted? && t.workers[w].grant == s.workers[w].grant
    ensures StartsOk(rules, t) && DispatchesOk(t)
  {
  }

  lemma InvFromQuiet(rules: Rules, s: State, t: State, w: nat)
    requires Inv(rules, s) && Quiet(s, t, w) && SameHistory(s, t)
    requires !t.workers[w].pc.Granted?
    requires CheckOk(rules, t.store, t.workers[w])
    ensures Inv(rules, t)
  {
    ControlFromEffect(s, t, w);
    DataFromQuiet(rules, s, t, w);
    ChecksFromQuiet(rules, s, t, w);
    HistoryFromQuiet(rules, s, t, w);
  }

  // ---------------------------------------------------------------- the check

  /** After the policy is read, everything that was read matches the claim. */
  lemma PolicyReadMatches(rules: Rules, store: Store, now: Time, worker: Worker)
    requires CheckOk(rules, store, worker) && worker.job.RunJob?
    requires worker.pc == Checking(PolicyRead) && ReadPhase(rules, store, now, worker, PolicyRead).Continue?
    ensures var cache := ReadPhase(rules, store, now, worker, PolicyRead).cache;
      CheckOk(rules, store, worker.(pc := Checking(StopReread), cache := cache))
  {
  }

  lemma OtherReadKeepsCheck(rules: Rules, store: Store, now: Time, worker: Worker, phase: Phase)
    requires OwnerOk(store, worker) && Claims(store) && CheckOk(rules, store, worker)
    requires worker.pc == Checking(phase) && phase != Verdict && phase != PolicyRead
    requires ReadPhase(rules, store, now, worker, phase).Continue?
    ensures var cache := ReadPhase(rules, store, now, worker, phase).cache;
      CheckOk(rules, store, worker.(pc := Checking(NextPhase(phase)), cache := cache))
  {
  }

  /** Each read keeps what the check knows so far. */
  lemma ReadKeepsCheck(rules: Rules, store: Store, now: Time, worker: Worker, phase: Phase)
    requires OwnerOk(store, worker) && Claims(store) && CheckOk(rules, store, worker)
    requires worker.pc == Checking(phase) && phase != Verdict && ReadPhase(rules, store, now, worker, phase).Continue?
    ensures var cache := ReadPhase(rules, store, now, worker, phase).cache;
      CheckOk(rules, store, worker.(pc := Checking(NextPhase(phase)), cache := cache))
  {
    if phase == PolicyRead {
      PolicyReadMatches(rules, store, now, worker);
    } else {
      OtherReadKeepsCheck(rules, store, now, worker, phase);
    }
  }

  /** The ways a step of the check can end. */
  predicate LeavesCheck(s: State, t: State, w: nat)
    requires Valid(s, w)
  {
    || t == LeaveCheck(s, w) || t == LeaveCheck(s, w).(stopped := true)
    || t == MoveTo(s, w, CheckAwaitWrite(true)) || t == MoveTo(s, w, CheckAwaitWrite(false))
  }

  predicate ReadsOn(rules: Rules, s: State, t: State, w: nat)
    requires Valid(s, w) && s.workers[w].pc.Checking? && s.workers[w].job.RunJob?
  {
    var worker := s.workers[w];
    var read := ReadPhase(rules, s.store, s.clock, worker, worker.pc.phase);
    && worker.pc.phase != Verdict && read.Continue?
    && t == Put(s, w, worker.(pc := Checking(NextPhase(worker.pc.phase)), cache := read.cache))
  }

  predicate PassesVerdict(rules: Rules, s: State, t: State, w: nat)
    requires Valid(s, w) && s.workers[w].job.RunJob?
  {
    && s.workers[w].pc == Checking(Verdict) && CanGrant(rules, s.workers[w])
    && ReadPhase(rules, s.store, s.clock, s.workers[w], Verdict).Continue?
    && t == GrantStep(rules, s, w)
  }

  lemma CheckStepShape(rules: Rules, s: State, w: nat)
    requires CanAdvance(s, w) && s.workers[w].pc.Checking?
    ensures var t := CheckStep(rules, s, w);
      LeavesCheck(s, t, w) || ReadsOn(rules, s, t, w) || PassesVerdict(rules, s, t, w)
  {
  }

  lemma LeavingStartsNothing(s: State, t: State, w: nat)
    requires Valid(s, w) && LeavesCheck(s, t, w)
    ensures t.starts == s.starts && t.store == s.store && Valid(t, w)
    ensures !t.workers[w].pc.Checking? && !t.workers[w].pc.Granted?
  {
  }

  lemma CheckGoesOn(rules: Rules, s: State, w: nat)
    requires CanAdvance(s, w) && s.workers[w].pc.Checking? && s.workers[w].pc.phase != Verdict
    requires OwnerOk(s.store, s.workers[w]) && Claims(s.store) && CheckOk(rules, s.store, s.workers[w])
    ensures CheckOk(rules, CheckStep(rules, s, w).store, CheckStep(rules, s, w).workers[w])
    ensures !CheckStep(rules, s, w).workers[w].pc.Granted?
  {
    CheckStepShape(rules, s, w);
    if LeavesCheck(s, CheckStep(rules, s, w), w) {
      LeavingStartsNothing(s, CheckStep(rules, s, w), w);
    } else {
      ReadKeepsCheck(rules, s.store, s.clock, s.workers[w], s.workers[w].pc.phase);
    }
  }

  lemma CheckStepKeepsCheck(rules: Rules, s: State, w: nat)
    requires Inv(rules, s) && CanAdvance(s, w) && s.workers[w].pc.Checking?
    requires CheckStep(rules, s, w).starts == s.starts
    ensures CheckOk(rules, CheckStep(rules, s, w).store, CheckStep(rules, s, w).workers[w])
    ensures !CheckStep(rules, s, w).workers[w].pc.Granted?
  {
    assert OwnerOk(s.store, s.workers[w]) && CheckOk(rules, s.store, s.workers[w]);
    if s.workers[w].pc.phase != Verdict {
      CheckGoesOn(rules, s, w);
    }
  }

  /** Only a passed verdict adds a start. */
  lemma StartNeedsVerdict(rules: Rules, s: State, w: nat)
    requires CanAdvance(s, w) && s.workers[w].pc.Checking?
    requires CheckStep(rules, s, w).starts != s.starts
    ensures PassesVerdict(rules, s, CheckStep(rules, s, w), w)
  {
    CheckStepShape(rules, s, w);
    if LeavesCheck(s, CheckStep(rules, s, w), w) {
      LeavingStartsNothing(s, CheckStep(rules, s, w), w);
    }
  }

  lemma PassedVerdictIsSound(rules: Rules, store: Store, now: Time, worker: Worker)
    requires OwnerOk(store, worker) && CheckOk(rules, store, worker) && CanGrant(rules, worker)
    requires worker.pc == Checking(Verdict) && ReadPhase(rules, store, now, worker, Verdict).Continue?
    ensures StartOk(rules, store, MakeGrant(rules, worker, now))
  {
  }

  /** When the last test passes, what is granted is what was approved, and the approval is live. */
  lemma VerdictIsSound(rules: Rules, s: State, w: nat)
    requires Inv(rules, s) && CanAdvance(s, w) && s.workers[w].pc.Checking?
    requires CheckStep(rules, s, w).starts != s.starts
    ensures CanGrant(rules, s.workers[w]) && CheckStep(rules, s, w) == GrantStep(rules, s, w)
    ensures StartOk(rules, s.store, MakeGrant(rules, s.workers[w], s.clock))
    ensures !s.stopped && !s.store.stop
  {
    StartNeedsVerdict(rules, s, w);
    assert OwnerOk(s.store, s.workers[w]) && CheckOk(rules, s.store, s.workers[w]) && StopOk(s, s.workers[w]);
    PassedVerdictIsSound(rules, s.store, s.clock, s.workers[w]);
  }

  lemma GrantKeepsHistory(rules: Rules, s: State, w: nat)
    requires Owners(s) && StartsOk(rules, s) && DispatchesOk(s)
    requires Valid(s, w) && s.workers[w].pc.Checking? && CanGrant(rules, s.workers[w])
    requires StartOk(rules, s.store, MakeGrant(rules, s.workers[w], s.clock))
    ensures StartsOk(rules, GrantStep(rules, s, w)) && DispatchesOk(GrantStep(rules, s, w))
  {
  }

  lemma CheckKeepsInv(rules: Rules, s: State, w: nat)
    requires Inv(rules, s) && CanAdvance(s, w) && s.workers[w].pc.Checking?
    ensures Inv(rules, CheckStep(rules, s, w))
  {
    var t := CheckStep(rules, s, w);
    if t.starts == s.starts {
      CheckEffect(rules, s, w);
      CheckStepKeepsCheck(rules, s, w);
      InvFromQuiet(rules, s, t, w);
    } else {
      VerdictIsSound(rules, s, w);
      GrantEffect(rules, s, w);
      ControlFromEffect(s, t, w);
      DataFromQuiet(rules, s, t, w);
      ChecksFromQuiet(rules, s, t, w);
      GrantKeepsHistory(rules, s, w);
    }
  }

  lemma DispatchKeepsHistory(rules: Rules, s: State, w: nat)
    requires Roles(s) && Owners(s) && StartsOk(rules, s) && DispatchesOk(s)
    requires CanAdvance(s, w) && s.workers[w].pc.Granted?
    ensures StartsOk(rules, DispatchStep(s, w)) && DispatchesOk(DispatchStep(s, w))
  {
  }

  lemma DispatchKeepsInv(rules: Rules, s: State, w: nat)
    requires Inv(rules, s) && CanAdvance(s, w) && s.workers[w].pc.Granted?
    ensures Inv(rules, DispatchStep(s, w))
  {
    var t := DispatchStep(s, w);
    DispatchEffect(s, w);
    ControlFromEffect(s, t, w);
    DataFromQuiet(rules, s, t, w);
    ChecksFromQuiet(rules, s, t, w);
    DispatchKeepsHistory(rules, s, w);
  }

  // ---------------------------------------------------------------- the transactions

  predicate SameKeys(before: Store, after: Store) {
    && before.actions.Keys == after.actions.Keys
    && before.approvals == after.approvals
    && (forall a <- before.actions ::
          && after.actions[a].approvalId == before.actions[a].approvalId
          && after.actions[a].proposalId == before.actions[a].proposalId
          && after.actions[a].sessionId == before.actions[a].sessionId)
  }

  /** Claims are about keys only, so a change of status, name or arguments keeps them. */
  lemma ClaimsFromSameKeys(before: Store, after: Store)
    requires Claims(before) && SameKeys(before, after)
    ensures Claims(after)
  {
  }

  lemma PersistKeepsLifecycle(store: Store, a: Id, status: ActionStatus)
    requires Lifecycle(store) && a in store.actions && store.actions[a].status == Running && status != Running
    ensures Lifecycle(PersistStore(store, a, status))
  {
  }

  /** Rows may be added, and change in other respects, but keep what a start refers to. */
  predicate Extends(before: Store, after: Store) {
    && (forall a <- before.actions ::
          && a in after.actions
          && after.actions[a].approvalId == before.actions[a].approvalId
          && after.actions[a].proposalId == before.actions[a].proposalId)
    && (forall k <- before.approvals ::
          && k in after.approvals
          && after.approvals[k].decision == before.approvals[k].decision
          && after.approvals[k].expiresAt == before.approvals[k].expiresAt
          && after.approvals[k].protectedHash == before.approvals[k].protectedHash)
  }

  lemma StartsFromExtends(rules: Rules, s: State, t: State)
    requires StartsOk(rules, s) && t.starts == s.starts && Extends(s.store, t.store)
    requires forall v: nat | v < |t.workers| && BeforeStart(t.workers[v].pc) :: Absent(t.starts, t.workers[v].actionId)
    ensures StartsOk(rules, t)
  {
  }

  lemma HistoryFromContinues(rules: Rules, s: State, t: State, w: nat)
    requires StartsOk(rules, s) && DispatchesOk(s) && Continues(s, t, w) && SameHistory(s, t)
    requires Extends(s.store, t.store) && !t.workers[w].pc.Granted?
    ensures StartsOk(rules, t) && DispatchesOk(t)
  {
  }

  /** Approvals keep everything but their use mark. */
  ghost predicate OnlyMarked(s: State, t: State) {
    && t.decided == s.decided && t.clock == s.clock
    && t.store.approvals.Keys == s.store.approvals.Keys
    && (forall k <- s.store.approvals ::
          t.store.approvals[k] == s.store.approvals[k].(used := t.store.approvals[k].used))
  }

  lemma DecisionsFromMarks(rules: Rules, s: State, t: State)
    requires Decisions(rules, s) && OnlyMarked(s, t)
    ensures Decisions(rules, t)
  {
  }

  lemma PersistShape(s: State, w: nat)
    requires Valid(s, w) && s.workers[w].actionId in s.store.actions
    ensures var t := PersistStep(s, w);
      SameKeys(s.store, t.store) && Extends(s.store, t.store) && OnlyMarked(s, t) && t.workers[w].pc == Finished
  {
  }

  lemma PersistKeepsOwners(rules: Rules, s: State, w: nat)
    requires Inv(rules, s) && CanAdvance(s, w) && s.workers[w].pc.Persisting?
    ensures Owners(PersistStep(s, w))
  {
    PersistEffect(s, w);
  }

  lemma PersistKeepsChecks(rules: Rules, s: State, w: nat)
    requires Inv(rules, s) && CanAdvance(s, w) && s.workers[w].pc.Persisting?
    ensures Checks(rules, PersistStep(s, w))
  {
  }

  lemma PersistKeepsData(rules: Rules, s: State, w: nat)
    requires Inv(rules, s) && CanAdvance(s, w) && s.workers[w].pc.Persisting?
    ensures Data(rules, PersistStep(s, w))
  {
    PersistShape(s, w);
    DecisionsFromMarks(rules, s, PersistStep(s, w));
    ClaimsFromSameKeys(s.store, PersistStep(s, w).store);
    PersistKeepsOwners(rules, s, w);
    assert OwnerOk(s.store, s.workers[w]) && RoleOk(s.workers[w]);
    PersistKeepsLifecycle(s.store, s.workers[w].actionId, s.workers[w].outcome);
  }

  lemma PersistKeepsControl(rules: Rules, s: State, w: nat)
    requires Inv(rules, s) && CanAdvance(s, w) && s.workers[w].pc.Persisting?
    ensures Control(PersistStep(s, w))
  {
    PersistEffect(s, w);
    ControlFromEffect(s, PersistStep(s, w), w);
  }

  lemma PersistKeepsHistory(rules: Rules, s: State, w: nat)
    requires Inv(rules, s) && CanAdvance(s, w) && s.workers[w].pc.Persisting?
    ensures StartsOk(rules, PersistStep(s, w)) && DispatchesOk(PersistStep(s, w))
  {
    PersistEffect(s, w);
    PersistShape(s, w);
    HistoryFromContinues(rules, s, PersistStep(s, w), w);
  }

  lemma PersistKeepsInv(rules: Rules, s: State, w: nat)
    requires Inv(rules, s) && CanAdvance(s, w) && s.workers[w].pc.Persisting?
    ensures Inv(rules, PersistStep(s, w))
  {
    PersistKeepsControl(rules, s, w);
    PersistKeepsData(rules, s, w);
    PersistKeepsChecks(rules, s, w);
    PersistKeepsHistory(rules, s, w);
  }

  lemma ClaimKeepsClaims(store: Store, k: Id, a: Id, action: ActionRow)
    requires Claims(store) && k in store.approvals && a !in store.actions
    requires action.approvalId == k && action.sessionId == store.approvals[k].sessionId
    requires action.proposalId == store.approvals[k].proposalId
    requires forall b <- store.actions :: store.actions[b].approvalId != k
    ensures Claims(ClaimStore(store, k, a, action))
  {
    var after := ClaimStore(store, k, a, action);
    assert a in after.actions;
    forall l <- after.approvals ensures after.approvals[l].used ==> HasAction(after, l) {
      if l != k && after.approvals[l].used {
        var b :| b in store.actions && store.actions[b].approvalId == l;
        assert b in after.actions && after.actions[b].approvalId == l;
      }
    }
  }

  lemma ClaimKeepsLifecycle(store: Store, k: Id, a: Id, action: ActionRow)
    requires Lifecycle(store) && k in store.approvals && a !in store.actions && action.status == Running
    ensures Lifecycle(ClaimStore(store, k, a, action))
  {
  }

  lemma ClaimKeepsOwners(rules: Rules, s: State, w: nat, k: Id, a: Id)
    requires Owners(s) && Enabled(rules, s, Claim(w, k, a))
    ensures Owners(ClaimStep(rules, s, w, k, a))
  {
  }

  lemma ClaimKeepsChecks(rules: Rules, s: State, w: nat, k: Id, a: Id)
    requires Control(s) && Owners(s) && Checks(rules, s) && Enabled(rules, s, Claim(w, k, a))
    ensures Checks(rules, ClaimStep(rules, s, w, k, a))
  {
    var t := ClaimStep(rules, s, w, k, a);
    ClaimEffect(rules, s, w, k, a);
    forall v: nat | v < |t.workers| ensures CheckOk(rules, t.store, t.workers[v]) {
      if v != w {
        assert OwnerOk(s.store, s.workers[v]) && CheckOk(rules, s.store, s.workers[v]);
      }
    }
  }

  /** A new action has no start and no dispatch yet. */
  lemma FreshActionAbsent(rules: Rules, s: State, a: Id)
    requires StartsOk(rules, s) && DispatchesOk(s) && a !in s.store.actions
    ensures Absent(s.starts, a) && Absent(s.dispatches, a)
  {
  }

  lemma ClaimExtends(rules: Rules, s: State, w: nat, k: Id, a: Id)
    requires Enabled(rules, s, Claim(w, k, a))
    ensures var t := ClaimStep(rules, s, w, k, a);
      Extends(s.store, t.store) && t.workers[w].actionId == a && t.workers[w].pc == Claimed
  {
  }

  lemma HistoryFromClaim(rules: Rules, s: State, t: State, w: nat, a: Id)
    requires StartsOk(rules, s) && DispatchesOk(s) && OnlyWorker(s, t, w) && SameHistory(s, t)
    requires Extends(s.store, t.store) && t.workers[w].actionId == a && t.workers[w].pc == Claimed
    requires Absent(s.starts, a) && Absent(s.dispatches, a)
    ensures StartsOk(rules, t) && DispatchesOk(t)
  {
  }

  lemma ClaimKeepsHistory(rules: Rules, s: State, w: nat, k: Id, a: Id)
    requires Inv(rules, s) && Enabled(rules, s, Claim(w, k, a))
    ensures StartsOk(rules, ClaimStep(rules, s, w, k, a)) && DispatchesOk(ClaimStep(rules, s, w, k, a))
  {
    ClaimEffect(rules, s, w, k, a);
    ClaimExtends(rules, s, w, k, a);
    FreshActionAbsent(rules, s, a);
    HistoryFromClaim(rules, s, ClaimStep(rules, s, w, k, a), w, a);
  }

  lemma ClaimKeepsDecisions(rules: Rules, s: State, w: nat, k: Id, a: Id)
    requires Inv(rules, s) && Enabled(rules, s, Claim(w, k, a))
    ensures Decisions(rules, ClaimStep(rules, s, w, k, a))
  {
    ClaimOnlyMarks(rules, s, w, k, a);
    DecisionsFromMarks(rules, s, ClaimStep(rules, s, w, k, a));
  }

  lemma ClaimOnlyMarks(rules: Rules, s: State, w: nat, k: Id, a: Id)
    requires Enabled(rules, s, Claim(w, k, a))
    ensures OnlyMarked(s, ClaimStep(rules, s, w, k, a))
  {
  }

  lemma ClaimKeepsInv(rules: Rules, s: State, w: nat, k: Id, a: Id)
    requires Inv(rules, s) && Enabled(rules, s, Claim(w, k, a))
    ensures Inv(rules, ClaimStep(rules, s, w, k, a))
  {
    var t := ClaimStep(rules, s, w, k, a);
    ClaimEffect(rules, s, w, k, a);
    ControlFromEffect(s, t, w);
    ClaimKeepsDecisions(rules, s, w, k, a);
    ClaimKeepsClaims(s.store, k, a, t.store.actions[a]);
    ClaimKeepsOwners(rules, s, w, k, a);
    ClaimKeepsLifecycle(s.store, k, a, t.store.actions[a]);
    ClaimKeepsChecks(rules, s, w, k, a);
    ClaimKeepsHistory(rules, s, w, k, a);
  }

  lemma DecideKeepsDecisions(rules: Rules, s: State, w: nat, k: Id)
    requires Inv(rules, s) && Enabled(rules, s, Decide(w, k))
    ensures Decisions(rules, DecideStep(rules, s, w, k))
  {
  }

  lemma DecideKeepsClaims(before: Store, after: Store)
    requires Claims(before) && after.actions == before.actions
    requires forall k <- before.approvals :: k in after.approvals && after.approvals[k] == before.approvals[k]
    requires forall k <- after.approvals :: k !in before.approvals ==> !after.approvals[k].used
    ensures Claims(after)
  {
  }

  lemma DecideKeepsChecks(rules: Rules, s: State, w: nat, k: Id)
    requires Inv(rules, s) && Enabled(rules, s, Decide(w, k))
    ensures Checks(rules, DecideStep(rules, s, w, k))
  {
    var t := DecideStep(rules, s, w, k);
    DecideEffect(rules, s, w, k);
    forall v: nat | v < |t.workers| ensures CheckOk(rules, t.store, t.workers[v]) {
      assert CheckOk(rules, s.store, s.workers[v]);
    }
  }

  lemma DecideKeepsData(rules: Rules, s: State, w: nat, k: Id)
    requires Inv(rules, s) && Enabled(rules, s, Decide(w, k))
    ensures Data(rules, DecideStep(rules, s, w, k))
  {
    var t := DecideStep(rules, s, w, k);
    DecideEffect(rules, s, w, k);
    DecideKeepsDecisions(rules, s, w, k);
    DecideKeepsClaims(s.store, t.store);
    OwnersFromContinues(s, t, w);
    DecideKeepsLifecycle(rules, s.store, s.workers[w].job, k, s.clock);
  }

  lemma DecideKeepsLifecycle(rules: Rules, store: Store, job: Job, k: Id, now: Time)
    requires Lifecycle(store) && job.DecideJob? && CanDecide(rules, store, job, now)
    ensures Lifecycle(DecideStore(rules, store, job, k, now))
  {
  }

  lemma DecideKeepsInv(rules: Rules, s: State, w: nat, k: Id)
    requires Inv(rules, s) && Enabled(rules, s, Decide(w, k))
    ensures Inv(rules, DecideStep(rules, s, w, k))
  {
    var t := DecideStep(rules, s, w, k);
    DecideEffect(rules, s, w, k);
    ControlFromEffect(s, t, w);
    DecideKeepsData(rules, s, w, k);
    DecideKeepsChecks(rules, s, w, k);
    HistoryFromContinues(rules, s, t, w);
  }

  // ---------------------------------------------------------------- the environment

  lemma TamperKeepsLifecycle(store: Store, move: Move)
    requires Lifecycle(store) && move.Tamper?
    ensures Lifecycle(TamperStore(store, move))
  {
  }

  lemma TamperKeepsWorkers(rules: Rules, s: State, move: Move)
    requires Owners(s) && Checks(rules, s) && StopSeen(s) && move.Tamper?
    ensures var t := s.(store := TamperStore(s.store, move)); Owners(t) && Checks(rules, t) && StopSeen(t)
  {
  }

  lemma TamperKeepsInv(rules: Rules, s: State, move: Move)
    requires Inv(rules, s) && move.Tamper?
    ensures Inv(rules, s.(store := TamperStore(s.store, move)))
  {
    var t := s.(store := TamperStore(s.store, move));
    ClaimsFromSameKeys(s.store, t.store);
    TamperKeepsLifecycle(s.store, move);
    TamperKeepsWorkers(rules, s, move);
    StartsFromExtends(rules, s, t);
  }

  lemma SpawnKeepsControl(s: State, job: Job)
    requires Control(s)
    ensures Control(s.(workers := s.workers + [NewWorker(job)]))
  {
  }

  lemma SpawnKeepsHistory(rules: Rules, s: State, job: Job)
    requires StartsOk(rules, s) && DispatchesOk(s)
    ensures var t := s.(workers := s.workers + [NewWorker(job)]); StartsOk(rules, t) && DispatchesOk(t)
  {
  }

  lemma SpawnKeepsWorkers(rules: Rules, s: State, job: Job)
    requires Owners(s) && Checks(rules, s)
    ensures var t := s.(workers := s.workers + [NewWorker(job)]); Owners(t) && Checks(rules, t)
  {
  }

  lemma SpawnKeepsInv(rules: Rules, s: State, job: Job)
    requires Inv(rules, s)
    ensures Inv(rules, Step(rules, s, Spawn(job)))
  {
    assert Step(rules, s, Spawn(job)) == s.(workers := s.workers + [NewWorker(job)]);
    SpawnKeepsControl(s, job);
    SpawnKeepsWorkers(rules, s, job);
    SpawnKeepsHistory(rules, s, job);
  }

  lemma TickKeepsInv(rules: Rules, s: State, seconds: nat)
    requires Inv(rules, s)
    ensures Inv(rules, Step(rules, s, Tick(seconds)))
  {
  }

  lemma CrashKeepsInv(rules: Rules, s: State)
    requires Inv(rules, s)
    ensures Inv(rules, Step(rules, s, Crash))
  {
  }

  // ---------------------------------------------------------------- every step

  lemma BeforeCheckKeepsInv(rules: Rules, s: State, w: nat)
    requires Inv(rules, s) && CanAdvance(s, w)
    requires s.workers[w].pc.Begin? || s.workers[w].pc.Claimed? || s.workers[w].pc.AwaitFence?
    ensures Inv(rules, AdvanceStep(rules, s, w))
  {
    if s.workers[w].pc.Begin? {
      BeginEffect(s, w);
    } else if s.workers[w].pc.Claimed? {
      ExpireEffect(s, w);
    } else {
      FenceEffect(s, w);
    }
    InvFromQuiet(rules, s, AdvanceStep(rules, s, w), w);
  }

  function WriterOf(pc: Pc): Pc {
    match pc
    case CheckAwaitWrite(marks) => CheckWriting(marks)
    case AwaitPersist => Persisting
    case StopFenced => StopWriting
    case _ => ClearWriting
  }

  lemma TakeWriteKeepsInv(rules: Rules, s: State, w: nat)
    requires Inv(rules, s) && CanAdvance(s, w)
    requires var pc := s.workers[w].pc;
      pc.CheckAwaitWrite? || pc.AwaitPersist? || pc.StopFenced? || pc.ClearFenced?
    ensures Inv(rules, TakeWrite(s, w, WriterOf(s.workers[w].pc)))
  {
    var pc := WriterOf(s.workers[w].pc);
    TakeWriteEffect(s, w, pc);
    InvFromQuiet(rules, s, TakeWrite(s, w, pc), w);
  }

  lemma AbortKeepsInv(rules: Rules, s: State, w: nat)
    requires Inv(rules, s) && Valid(s, w) && !s.workers[w].pc.Finished?
    ensures Inv(rules, AbortStep(s, w))
  {
    AbortEffect(s, w);
    InvFromQuiet(rules, s, AbortStep(s, w), w);
  }

  /** A run whose action has no parser ends as if it had been aborted. */
  lemma ReloadIsAbort(s: State, w: nat)
    requires Valid(s, w) && s.workers[w].pc.AwaitPersist? && !HasParser(s.store, s.workers[w].actionId)
    ensures ReloadStep(s, w) == AbortStep(s, w)
  {
  }

  lemma ReloadKeepsInv(rules: Rules, s: State, w: nat)
    requires Inv(rules, s) && CanAdvance(s, w) && s.workers[w].pc.AwaitPersist?
    ensures Inv(rules, ReloadStep(s, w))
  {
    if HasParser(s.store, s.workers[w].actionId) {
      TakeWriteKeepsInv(rules, s, w);
    } else {
      AbortKeepsInv(rules, s, w);
      ReloadIsAbort(s, w);
    }
  }

  lemma CommitKeepsInv(rules: Rules, s: State, w: nat)
    requires Inv(rules, s) && CanAdvance(s, w)
    requires var pc := s.workers[w].pc;
      pc.CheckWriting? || pc.StopWriting? || pc.ClearWriting? || pc.ClearCommitted?
    ensures Inv(rules, AdvanceStep(rules, s, w))
  {
    if s.workers[w].pc.CheckWriting? {
      CheckWriteEffect(s, w);
    } else {
      StopEffect(s, w);
    }
    InvFromQuiet(rules, s, AdvanceStep(rules, s, w), w);
  }

  lemma CheckContinues(rules: Rules, s: State, w: nat)
    requires CanAdvance(s, w) && s.workers[w].pc.Checking?
    ensures Continues(s, CheckStep(rules, s, w), w)
  {
    CheckStepShape(rules, s, w);
  }

  lemma UnderwayContinues(rules: Rules, s: State, w: nat)
    requires CanAdvance(s, w) && IsUnderway(s.workers[w].pc)
    ensures Continues(s, AdvanceStep(rules, s, w), w)
  {
  }

  lemma CommitContinues(rules: Rules, s: State, w: nat)
    requires CanAdvance(s, w) && Commits(s.workers[w].pc)
    ensures Continues(s, AdvanceStep(rules, s, w), w)
  {
  }

  lemma BeginContinues(rules: Rules, s: State, w: nat)
    requires CanAdvance(s, w) && s.workers[w].pc.Begin?
    ensures Continues(s, AdvanceStep(rules, s, w), w)
  {
  }

  lemma LateContinues(rules: Rules, s: State, w: nat)
    requires CanAdvance(s, w) && !IsUnderway(s.workers[w].pc) && !s.workers[w].pc.Checking? && !Commits(s.workers[w].pc)
    requires !s.workers[w].pc.Begin?
    ensures Continues(s, AdvanceStep(rules, s, w), w)
  {
  }

  /** A worker that advances goes on with the action it has. */
  lemma AdvanceContinues(rules: Rules, s: State, w: nat)
    requires CanAdvance(s, w)
    ensures Continues(s, AdvanceStep(rules, s, w), w)
  {
    if s.workers[w].pc.Checking? {
      CheckContinues(rules, s, w);
    } else if IsUnderway(s.workers[w].pc) {
      UnderwayContinues(rules, s, w);
    } else if Commits(s.workers[w].pc) {
      CommitContinues(rules, s, w);
    } else if s.workers[w].pc.Begin? {
      BeginContinues(rules, s, w);
    } else {
      LateContinues(rules, s, w);
    }
  }

  lemma AdvanceKeepsInv(rules: Rules, s: State, w: nat)
    requires Inv(rules, s) && CanAdvance(s, w)
    ensures Inv(rules, AdvanceStep(rules, s, w))
  {
    match s.workers[w].pc {
      case Begin | Claimed | AwaitFence => BeforeCheckKeepsInv(rules, s, w);
      case Checking(_) => CheckKeepsInv(rules, s, w);
      case CheckAwaitWrite(_) | StopFenced | ClearFenced => TakeWriteKeepsInv(rules, s, w);
      case AwaitPersist => ReloadKeepsInv(rules, s, w);
      case CheckWriting(_) | StopWriting | ClearWriting | ClearCommitted => CommitKeepsInv(rules, s, w);
      case Granted => DispatchKeepsInv(rules, s, w);
      case Persisting => PersistKeepsInv(rules, s, w);
      case _ =>
    }
  }

  lemma QuietMoveKeepsInv(rules: Rules, s: State, move: Move)
    requires Inv(rules, s) && Enabled(rules, s, move)
    requires move.Deny? || move.DecideRefused? || move.Returned? || move.NoDispatcher?
    ensures Inv(rules, Step(rules, s, move))
  {
    var w := move.worker;
    match move {
      case Deny(_) => RefuseEffect(s, w);
      case DecideRefused(_) => RefuseEffect(s, w);
      case Returned(_, status) => ReturnEffect(s, w, status);
      case NoDispatcher(_) => ReturnEffect(s, w, Failed);
      case _ =>
    }
    InvFromQuiet(rules, s, Step(rules, s, move), w);
  }

  lemma RewriteKeepsInv(rules: Rules, s: State, move: Move)
    requires Inv(rules, s) && Enabled(rules, s, move) && move.Tamper?
    ensures Inv(rules, Step(rules, s, move))
  {
    assert Step(rules, s, move) == s.(store := TamperStore(s.store, move));
    TamperKeepsInv(rules, s, move);
  }

  lemma EnvironmentKeepsInv(rules: Rules, s: State, move: Move)
    requires Inv(rules, s) && Enabled(rules, s, move) && !IsWorkerMove(move)
    ensures Inv(rules, Step(rules, s, move))
  {
    match move {
      case Spawn(job) => SpawnKeepsInv(rules, s, job);
      case Tick(seconds) => TickKeepsInv(rules, s, seconds);
      case Crash => CrashKeepsInv(rules, s);
      case _ => RewriteKeepsInv(rules, s, move);
    }
  }

  /** Every step of every worker and of the environment keeps the whole invariant. */
  lemma StepKeepsInv(rules: Rules, s: State, move: Move)
    requires Inv(rules, s) && Enabled(rules, s, move)
    ensures Inv(rules, Step(rules, s, move))
  {
    match move {
      case Advance(w) => AdvanceKeepsInv(rules, s, w);
      case Claim(w, k, a) => ClaimKeepsInv(rules, s, w, k, a);
      case Decide(w, k) => DecideKeepsInv(rules, s, w, k);
      case Abort(w) => AbortKeepsInv(rules, s, w);
      case Spawn(_) | Tamper(_, _, _, _, _) | Tick(_) | Crash => EnvironmentKeepsInv(rules, s, move);
      case _ => QuietMoveKeepsInv(rules, s, move);
    }
  }
}
