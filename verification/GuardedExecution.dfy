/** The guarded execution protocol as a labelled transition system.

    Any number of workers serve run, approve, reject, stop and clear requests over one durable
    store.  A move names the worker that moves and every choice the environment makes, so a
    run is a sequence of moves and `Step` is a function.  Between any two steps the clock may
    advance, rows the protocol does not own may be rewritten, and the process may crash. */
module GuardedExecution {
  import opened Wrappers
  import opened ProtectedRecord
  import opened ActionNames

  type Id = string
  type Time = nat

  /** Fifteen minutes, in seconds. */
  const APPROVAL_TTL: nat := 900

  // ---------------------------------------------------------------- rows

  datatype SessionState = Draft | Authorized | Ready | InProgress | Closed | Expired | Blocked

  datatype SessionRow = SessionRow(state: SessionState, confirmed: bool, expiresAt: Option<Time>)

  datatype TargetRow = TargetRow(id: Id, address: string, expiresAt: Time, locked: bool)

  /** `content` stands for every column, and every finding row, that proposal validation reads. */
  datatype ProposalRow = ProposalRow(sessionId: Id, content: string)

  datatype Decision = Approved | Rejected

  datatype ApprovalRow = ApprovalRow(
    sessionId: Id, proposalId: Id, targetId: Id,
    decision: Decision, protectedHash: Digest, expiresAt: Time, used: bool)

  datatype ActionStatus = Running | Completed | Failed | TimedOut | Cancelled

  /** `arguments` is None when the stored text is not a JSON object. */
  datatype ActionRow = ActionRow(
    sessionId: Id, proposalId: Id, approvalId: Id,
    name: string, arguments: Option<Loaded>, status: ActionStatus)

  datatype ResultRow = ResultRow(actionId: Id, status: ActionStatus)

  datatype AuditEvent =
    | DecisionRecorded(proposalId: Id, decision: Decision)
    | ActionStarted(actionId: Id)
    | ActionFinished(actionId: Id, status: ActionStatus)

  /** The durable store.  Targets are keyed by session, whose column is unique; `policies` holds
      the latest policy decision of each proposal. */
  datatype Store = Store(
    sessions: map<Id, SessionRow>,
    targets: map<Id, TargetRow>,
    proposals: map<Id, ProposalRow>,
    policies: map<Id, bool>,
    approvals: map<Id, ApprovalRow>,
    actions: map<Id, ActionRow>,
    results: multiset<ResultRow>,
    audit: multiset<AuditEvent>,
    stop: bool)

  datatype Validated = Validated(actionName: string, arguments: Arguments)

  /** What the protocol takes from elsewhere: the hash, proposal validation, the private-address
      test and the canonical text of an address. */
  datatype Rules = Rules(
    hash: Scope -> Digest,
    validate: (string, Id) -> Option<Validated>,
    isPrivate: string -> bool,
    canonical: string -> string)

  /** Proposal validation lets only registered names pass. */
  ghost predicate RegisteredOnly(rules: Rules) {
    forall content, targetId :: rules.validate(content, targetId).Some? ==>
      IsRegistered(rules.validate(content, targetId).value.actionName)
  }

  // ---------------------------------------------------------------- row checks

  predicate IsClosed(row: SessionRow) {
    row.state in {Closed, Expired, Blocked}
  }

  predicate HasExpired(row: SessionRow, now: Time) {
    row.expiresAt.None? || row.expiresAt.value <= now
  }

  predicate SessionUsable(row: SessionRow, now: Time) {
    !IsClosed(row) && !HasExpired(row, now)
  }

  predicate TargetUsable(rules: Rules, session: SessionRow, target: TargetRow, now: Time) {
    session.confirmed && !target.locked && target.expiresAt > now && rules.isPrivate(target.address)
  }

  datatype Context = Context(session: SessionRow, target: TargetRow, validated: Validated)

  function DecisionContext(rules: Rules, store: Store, sessionId: Id, proposalId: Id, now: Time): Option<Context> {
    if sessionId !in store.sessions || !SessionUsable(store.sessions[sessionId], now) then None
    else if sessionId !in store.targets
         || !TargetUsable(rules, store.sessions[sessionId], store.targets[sessionId], now) then None
    else if proposalId !in store.proposals || store.proposals[proposalId].sessionId != sessionId then None
    else
      var target := store.targets[sessionId];
      match rules.validate(store.proposals[proposalId].content, target.id)
      case None => None
      case Some(validated) => Some(Context(store.sessions[sessionId], target, validated))
  }

  function ScopeOf(rules: Rules, sessionId: Id, proposalId: Id, target: TargetRow, validated: Validated): Scope {
    Scope(sessionId, target.id, rules.canonical(target.address), proposalId,
          validated.actionName, validated.arguments)
  }

  predicate Revalidates(rules: Rules, scope: Scope, approval: ApprovalRow, used: bool, stop: bool, now: Time) {
    && !stop
    && approval.decision == Approved
    && approval.expiresAt > now
    && !used
    && rules.hash(scope) == approval.protectedHash
  }

  function Min(a: Time, b: Time): Time {
    if a <= b then a else b
  }

  // ---------------------------------------------------------------- workers

  datatype Job =
    | RunJob(sessionId: Id, proposalId: Id)
    | DecideJob(sessionId: Id, proposalId: Id, decision: Decision)
    | StopJob
    | ClearJob

  /** The rows of the final check, in the order it reads them. */
  datatype Phase = StopRead | SessionRead | TargetRead | ProposalRead | ActionRead
    | ApprovalRead | PolicyRead | StopReread | Verdict

  datatype Pc =
    | Begin
    | InTransaction
    | Claimed
    | AwaitFence
    | Checking(phase: Phase)
    | CheckAwaitWrite(marks: bool)
    | CheckWriting(marks: bool)
    | Granted
    | Dispatching
    | AwaitPersist
    | Persisting
    | StopFenced
    | StopWriting
    | ClearFenced
    | ClearWriting
    | ClearCommitted
    | Finished

  /** Rows held by a worker's database session.  A row that is present is not read again. */
  datatype Cache = Cache(
    stop: Option<bool>,
    session: Option<SessionRow>,
    target: Option<TargetRow>,
    proposal: Option<ProposalRow>,
    action: Option<ActionRow>,
    approval: Option<ApprovalRow>,
    policy: Option<bool>)

  const EMPTY_CACHE := Cache(None, None, None, None, None, None, None)

  /** One permission to start, with exactly what the dispatcher is given; `checked` records the
      arguments that the final check hashed. */
  datatype Grant = Grant(
    actionId: Id, approvalId: Id, sessionId: Id, proposalId: Id, checkedAt: Time,
    targetId: Id, address: string, actionName: string, arguments: Loaded, checked: Arguments)

  function GrantScope(rules: Rules, grant: Grant): Scope {
    Scope(grant.sessionId, grant.targetId, rules.canonical(grant.address), grant.proposalId,
          grant.actionName, grant.checked)
  }

  datatype Worker = Worker(
    job: Job, pc: Pc, actionId: Id, approvalId: Id, cache: Cache,
    grant: Option<Grant>, outcome: ActionStatus)

  /** What was in force when a decision was recorded. */
  datatype DecisionRecord = DecisionRecord(scope: Scope, at: Time, sessionExpiry: Time, targetExpiry: Time)

  /** `decided`, `starts` and `dispatches` only record history; no step reads them. */
  datatype State = State(
    store: Store,
    stopped: bool,
    fenceLock: Option<nat>,
    writeLock: Option<nat>,
    workers: seq<Worker>,
    clock: Time,
    decided: map<Id, DecisionRecord>,
    starts: seq<Grant>,
    dispatches: seq<Grant>)

  predicate HoldsWrite(pc: Pc) {
    pc.InTransaction? || pc.CheckWriting? || pc.Persisting? || pc.StopWriting? || pc.ClearWriting?
  }

  predicate HoldsFence(pc: Pc) {
    || pc.Checking? || pc.CheckAwaitWrite? || pc.CheckWriting?
    || pc.StopFenced? || pc.StopWriting? || pc.ClearFenced? || pc.ClearWriting? || pc.ClearCommitted?
  }

  predicate AwaitsFence(worker: Worker) {
    worker.pc.AwaitFence? || (worker.pc.Begin? && (worker.job.StopJob? || worker.job.ClearJob?))
  }

  predicate AwaitsWrite(worker: Worker) {
    || worker.pc.CheckAwaitWrite? || worker.pc.AwaitPersist? || worker.pc.StopFenced? || worker.pc.ClearFenced?
    || (worker.pc.Begin? && (worker.job.RunJob? || worker.job.DecideJob?))
  }

  // ---------------------------------------------------------------- moves

  datatype Move =
    | Spawn(job: Job)
    | Advance(worker: nat)
    | Claim(worker: nat, approvalId: Id, actionId: Id)
    | Deny(worker: nat)
    | Decide(worker: nat, approvalId: Id)
    | DecideRefused(worker: nat)
    | Returned(worker: nat, status: ActionStatus)
    | NoDispatcher(worker: nat)
    | Abort(worker: nat)
    | Tamper(sessions: map<Id, SessionRow>, targets: map<Id, TargetRow>, proposals: map<Id, ProposalRow>,
             policies: map<Id, bool>, contents: map<Id, (string, Option<Loaded>)>)
    | Tick(seconds: nat)
    | Crash

  predicate IsWorkerMove(move: Move) {
    !move.Spawn? && !move.Tamper? && !move.Tick? && !move.Crash?
  }

  // ---------------------------------------------------------------- store transactions

  predicate CanClaim(rules: Rules, store: Store, sessionId: Id, proposalId: Id, approvalId: Id, now: Time) {
    var context := DecisionContext(rules, store, sessionId, proposalId, now);
    && context.Some?
    && approvalId in store.approvals
    && var approval := store.approvals[approvalId];
    && approval.sessionId == sessionId
    && approval.proposalId == proposalId
    && approval.targetId == context.value.target.id
    && (forall a <- store.actions ::
          store.actions[a].proposalId != proposalId && store.actions[a].approvalId != approvalId)
    && proposalId in store.policies && store.policies[proposalId]
    && Revalidates(rules, ScopeOf(rules, sessionId, proposalId, context.value.target, context.value.validated),
                   approval, approval.used, store.stop, now)
  }

  function ClaimStore(store: Store, approvalId: Id, actionId: Id, action: ActionRow): Store
    requires approvalId in store.approvals
  {
    store.(approvals := store.approvals[approvalId := store.approvals[approvalId].(used := true)],
           actions := store.actions[actionId := action],
           audit := store.audit + multiset{ActionStarted(actionId)})
  }

  /** The one write of a refusal that touches a row of this model: an overdue session is marked. */
  function RefusalStore(store: Store, sessionId: Id, now: Time): Store {
    if sessionId in store.sessions && !IsClosed(store.sessions[sessionId]) && HasExpired(store.sessions[sessionId], now)
    then store.(sessions := store.sessions[sessionId := store.sessions[sessionId].(state := Expired)])
    else store
  }

  predicate CanDecide(rules: Rules, store: Store, job: Job, now: Time)
    requires job.DecideJob?
  {
    && DecisionContext(rules, store, job.sessionId, job.proposalId, now).Some?
    && (job.decision == Approved ==> !store.stop)
    && (forall k <- store.approvals :: store.approvals[k].proposalId != job.proposalId)
    && (job.decision == Approved ==> job.proposalId in store.policies && store.policies[job.proposalId])
  }

  function DecisionExpiry(context: Context, now: Time): Time
    requires context.session.expiresAt.Some?
  {
    Min(context.session.expiresAt.value, Min(context.target.expiresAt, now + APPROVAL_TTL))
  }

  function DecideStore(rules: Rules, store: Store, job: Job, approvalId: Id, now: Time): Store
    requires job.DecideJob? && CanDecide(rules, store, job, now)
  {
    var context := DecisionContext(rules, store, job.sessionId, job.proposalId, now).value;
    var scope := ScopeOf(rules, job.sessionId, job.proposalId, context.target, context.validated);
    var row := ApprovalRow(job.sessionId, job.proposalId, context.target.id, job.decision, rules.hash(scope),
                           DecisionExpiry(context, now), false);
    store.(approvals := store.approvals[approvalId := row],
           audit := store.audit + multiset{DecisionRecorded(job.proposalId, job.decision)})
  }

  function PersistStore(store: Store, actionId: Id, status: ActionStatus): Store
    requires actionId in store.actions
  {
    store.(actions := store.actions[actionId := store.actions[actionId].(status := status)],
           results := store.results + multiset{ResultRow(actionId, status)},
           audit := store.audit + multiset{ActionFinished(actionId, status)})
  }

  function TamperStore(store: Store, move: Move): Store
    requires move.Tamper?
  {
    store.(sessions := move.sessions, targets := move.targets, proposals := move.proposals,
           policies := move.policies,
           actions := map a | a in store.actions ::
             if a in move.contents
             then store.actions[a].(name := move.contents[a].0, arguments := move.contents[a].1)
             else store.actions[a])
  }

  // ---------------------------------------------------------------- the final check

  /** Two refusals commit before they raise: a session found overdue is marked, and a proposal that no
      longer validates only leaves an event. */
  datatype PhaseResult = Continue(cache: Cache) | Stopped | Raise | RaiseAfterWrite(marks: bool)

  function Fresh<T>(cached: Option<T>, stored: Option<T>): Option<T> {
    if cached.Some? then cached else stored
  }

  function Lookup<T>(table: map<Id, T>, key: Id): Option<T> {
    if key in table then Some(table[key]) else None
  }

  /** The conditions on the claimed action, its approval and the policy, over the rows read. */
  predicate ClaimStillMatches(worker: Worker, validated: Validated, cache: Cache) {
    && worker.job.RunJob?
    && cache.action.Some? && cache.approval.Some?
    && cache.action.value.sessionId == worker.job.sessionId
    && cache.action.value.proposalId == worker.job.proposalId
    && cache.action.value.approvalId == worker.approvalId
    && cache.action.value.status == Running
    && cache.action.value.name == validated.actionName
    && cache.action.value.arguments.Some? && Matches(cache.action.value.arguments.value, validated.arguments)
    && cache.approval.value.used
    && cache.policy == Some(true)
  }

  /** Reads one more row of the final check and applies the test that follows the read. */
  function ReadPhase(rules: Rules, store: Store, now: Time, worker: Worker, phase: Phase): PhaseResult
    requires worker.job.RunJob?
  {
    var cache := worker.cache;
    var sessionId := worker.job.sessionId;
    var proposalId := worker.job.proposalId;
    match phase
    case StopRead =>
      var stop := Fresh(cache.stop, Some(store.stop));
      if stop == Some(true) then Stopped else Continue(cache.(stop := stop))
    case SessionRead =>
      var session := Fresh(cache.session, Lookup(store.sessions, sessionId));
      if session.None? || IsClosed(session.value) then Raise
      else if HasExpired(session.value, now) then RaiseAfterWrite(true)
      else Continue(cache.(session := session))
    case TargetRead =>
      var target := Fresh(cache.target, Lookup(store.targets, sessionId));
      if target.None? || cache.session.None? || !TargetUsable(rules, cache.session.value, target.value, now) then Raise
      else Continue(cache.(target := target))
    case ProposalRead =>
      var proposal := Fresh(cache.proposal, Lookup(store.proposals, proposalId));
      if proposal.None? || cache.target.None? || proposal.value.sessionId != sessionId then Raise
      else if rules.validate(proposal.value.content, cache.target.value.id).None? then RaiseAfterWrite(false)
      else Continue(cache.(proposal := proposal))
    case ActionRead =>
      Continue(cache.(action := Fresh(cache.action, Lookup(store.actions, worker.actionId))))
    case ApprovalRead =>
      Continue(cache.(approval := Fresh(cache.approval, Lookup(store.approvals, worker.approvalId))))
    case PolicyRead =>
      var read := cache.(policy := Fresh(cache.policy, Lookup(store.policies, proposalId)));
      if cache.target.None? || cache.proposal.None? then Raise
      else
        var validated := rules.validate(cache.proposal.value.content, cache.target.value.id);
        if validated.None? || !ClaimStillMatches(worker, validated.value, read) then Raise
        else if cache.approval.value.sessionId != sessionId || cache.approval.value.proposalId != proposalId
             || cache.approval.value.targetId != cache.target.value.id then Raise
        else Continue(read)
    case StopReread => Continue(cache.(stop := Fresh(cache.stop, Some(store.stop))))
    case Verdict =>
      if cache.target.None? || cache.proposal.None? || cache.approval.None? || cache.stop.None? then Raise
      else
        var validated := rules.validate(cache.proposal.value.content, cache.target.value.id);
        if validated.None? then Raise
        else if Revalidates(rules, ScopeOf(rules, sessionId, proposalId, cache.target.value, validated.value),
                            cache.approval.value, false, cache.stop.value, now)
        then Continue(cache) else Raise
  }

  function NextPhase(phase: Phase): Phase {
    match phase
    case StopRead => SessionRead
    case SessionRead => TargetRead
    case TargetRead => ProposalRead
    case ProposalRead => ActionRead
    case ActionRead => ApprovalRead
    case ApprovalRead => PolicyRead
    case PolicyRead => StopReread
    case StopReread => Verdict
    case Verdict => Verdict
  }

  function Rechecked(rules: Rules, cache: Cache): Option<Validated> {
    if cache.proposal.None? || cache.target.None? then None
    else rules.validate(cache.proposal.value.content, cache.target.value.id)
  }

  predicate CanGrant(rules: Rules, worker: Worker) {
    && worker.job.RunJob?
    && worker.cache.action.Some? && worker.cache.action.value.arguments.Some? && Rechecked(rules, worker.cache).Some?
  }

  /** What is dispatched comes from the rows the final check read, not from a later read. */
  function MakeGrant(rules: Rules, worker: Worker, now: Time): Grant
    requires CanGrant(rules, worker)
  {
    Grant(worker.actionId, worker.approvalId, worker.job.sessionId, worker.job.proposalId, now,
          worker.cache.target.value.id, worker.cache.target.value.address,
          worker.cache.action.value.name, worker.cache.action.value.arguments.value,
          Rechecked(rules, worker.cache).value.arguments)
  }

  // ---------------------------------------------------------------- steps

  predicate Valid(s: State, w: nat) {
    w < |s.workers|
  }

  function Put(s: State, w: nat, worker: Worker): State
    requires Valid(s, w)
  {
    s.(workers := s.workers[w := worker])
  }

  function MoveTo(s: State, w: nat, pc: Pc): State
    requires Valid(s, w)
  {
    Put(s, w, s.workers[w].(pc := pc))
  }

  /** Leaves the fence with the run cancelled and not yet recorded. */
  function LeaveCheck(s: State, w: nat): State
    requires Valid(s, w)
  {
    Put(s, w, s.workers[w].(pc := AwaitPersist, outcome := Cancelled)).(fenceLock := None)
  }

  function GrantStep(rules: Rules, s: State, w: nat): State
    requires Valid(s, w) && CanGrant(rules, s.workers[w])
  {
    var grant := MakeGrant(rules, s.workers[w], s.clock);
    Put(s, w, s.workers[w].(pc := Granted, grant := Some(grant))).(fenceLock := None, starts := s.starts + [grant])
  }

  function CheckStep(rules: Rules, s: State, w: nat): State
    requires Valid(s, w) && s.workers[w].pc.Checking? && s.workers[w].job.RunJob?
  {
    var worker := s.workers[w];
    var phase := worker.pc.phase;
    match ReadPhase(rules, s.store, s.clock, worker, phase)
    case Stopped => LeaveCheck(s, w).(stopped := true)
    case Raise => LeaveCheck(s, w)
    case RaiseAfterWrite(marks) => MoveTo(s, w, CheckAwaitWrite(marks))
    case Continue(cache) =>
      if phase != Verdict then Put(s, w, worker.(pc := Checking(NextPhase(phase)), cache := cache))
      else if CanGrant(rules, worker) then GrantStep(rules, s, w)
      else LeaveCheck(s, w)
  }

  /** Stop and clear enter the fence first; a stop raises the flag as it enters. */
  function BeginStep(s: State, w: nat): State
    requires Valid(s, w)
  {
    match s.workers[w].job
    case StopJob => MoveTo(s, w, StopFenced).(fenceLock := Some(w), stopped := true)
    case ClearJob => MoveTo(s, w, ClearFenced).(fenceLock := Some(w))
    case _ => MoveTo(s, w, InTransaction).(writeLock := Some(w))
  }

  /** Forgets every row the claim read, so that the final check reads each of them again. */
  function ExpireStep(s: State, w: nat): State
    requires Valid(s, w)
  {
    Put(s, w, s.workers[w].(pc := AwaitFence, cache := EMPTY_CACHE))
  }

  function FenceStep(s: State, w: nat): State
    requires Valid(s, w)
  {
    if s.stopped then Put(s, w, s.workers[w].(pc := AwaitPersist, outcome := Cancelled))
    else MoveTo(s, w, Checking(StopRead)).(fenceLock := Some(w))
  }

  function CheckWriteStep(s: State, w: nat): State
    requires Valid(s, w) && s.workers[w].pc.CheckWriting? && s.workers[w].job.RunJob?
  {
    var store := if s.workers[w].pc.marks then RefusalStore(s.store, s.workers[w].job.sessionId, s.clock) else s.store;
    LeaveCheck(s, w).(writeLock := None, store := store)
  }

  function DispatchStep(s: State, w: nat): State
    requires Valid(s, w) && s.workers[w].grant.Some?
  {
    MoveTo(s, w, Dispatching).(dispatches := s.dispatches + [s.workers[w].grant.value])
  }

  function TakeWrite(s: State, w: nat, pc: Pc): State
    requires Valid(s, w)
  {
    MoveTo(s, w, pc).(writeLock := Some(w))
  }

  /** A result names the parser of its action, looked up by the name the row has now. */
  predicate HasParser(store: Store, actionId: Id) {
    actionId in store.actions && IsRegistered(store.actions[actionId].name)
  }

  /** Reads the action again to record its outcome.  A row that was renamed has no parser: the lookup
      raises, nobody catches that, and the run ends with nothing recorded. */
  function ReloadStep(s: State, w: nat): State
    requires Valid(s, w)
  {
    if HasParser(s.store, s.workers[w].actionId) then TakeWrite(s, w, Persisting) else MoveTo(s, w, Finished)
  }

  function PersistStep(s: State, w: nat): State
    requires Valid(s, w) && s.workers[w].actionId in s.store.actions
  {
    MoveTo(s, w, Finished)
      .(writeLock := None, store := PersistStore(s.store, s.workers[w].actionId, s.workers[w].outcome))
  }

  function StopStep(s: State, w: nat): State
    requires Valid(s, w)
  {
    MoveTo(s, w, Finished).(writeLock := None, fenceLock := None, store := s.store.(stop := true))
  }

  function ClearStep(s: State, w: nat): State
    requires Valid(s, w)
  {
    MoveTo(s, w, ClearCommitted).(writeLock := None, store := s.store.(stop := false))
  }

  /** Only after its commit does a clear lower the flag. */
  function ClearDoneStep(s: State, w: nat): State
    requires Valid(s, w)
  {
    MoveTo(s, w, Finished).(fenceLock := None, stopped := false)
  }

  /** Worker `w` has a step that waits for nothing but a lock, and that lock is free. */
  predicate CanAdvance(s: State, w: nat) {
    && Valid(s, w)
    && var worker := s.workers[w];
    && !worker.pc.InTransaction? && !worker.pc.Dispatching? && !worker.pc.Finished?
    && (AwaitsFence(worker) ==> s.fenceLock.None?)
    && (AwaitsWrite(worker) ==> s.writeLock.None?)
    && (worker.pc.Checking? || worker.pc.CheckWriting? ==> worker.job.RunJob?)
    && (worker.pc.Granted? ==> worker.grant.Some?)
    && (worker.pc.Persisting? ==> worker.actionId in s.store.actions)
  }

  function AdvanceStep(rules: Rules, s: State, w: nat): State
    requires CanAdvance(s, w)
  {
    match s.workers[w].pc
    case Begin => BeginStep(s, w)
    case Claimed => ExpireStep(s, w)
    case AwaitFence => FenceStep(s, w)
    case Checking(_) => CheckStep(rules, s, w)
    case CheckAwaitWrite(marks) => TakeWrite(s, w, CheckWriting(marks))
    case CheckWriting(_) => CheckWriteStep(s, w)
    case Granted => DispatchStep(s, w)
    case AwaitPersist => ReloadStep(s, w)
    case Persisting => PersistStep(s, w)
    case StopFenced => TakeWrite(s, w, StopWriting)
    case StopWriting => StopStep(s, w)
    case ClearFenced => TakeWrite(s, w, ClearWriting)
    case ClearWriting => ClearStep(s, w)
    case ClearCommitted => ClearDoneStep(s, w)
    case _ => s
  }

  predicate InRunTransaction(s: State, w: nat) {
    Valid(s, w) && s.workers[w].pc.InTransaction? && s.workers[w].job.RunJob?
  }

  predicate InDecideTransaction(s: State, w: nat) {
    Valid(s, w) && s.workers[w].pc.InTransaction? && s.workers[w].job.DecideJob?
  }

  ghost predicate Enabled(rules: Rules, s: State, move: Move) {
    match move
    case Spawn(_) => true
    case Advance(w) => CanAdvance(s, w)
    case Claim(w, k, a) =>
      InRunTransaction(s, w) && a !in s.store.actions
      && CanClaim(rules, s.store, s.workers[w].job.sessionId, s.workers[w].job.proposalId, k, s.clock)
    case Deny(w) =>
      InRunTransaction(s, w)
      && forall k <- s.store.approvals ::
        !CanClaim(rules, s.store, s.workers[w].job.sessionId, s.workers[w].job.proposalId, k, s.clock)
    case Decide(w, k) =>
      InDecideTransaction(s, w) && k !in s.store.approvals && CanDecide(rules, s.store, s.workers[w].job, s.clock)
    case DecideRefused(w) =>
      InDecideTransaction(s, w) && !CanDecide(rules, s.store, s.workers[w].job, s.clock)
    case Returned(w, status) =>
      Valid(s, w) && s.workers[w].pc.Dispatching? && status in {Completed, Failed, TimedOut}
    case NoDispatcher(w) => Valid(s, w) && s.workers[w].pc.Granted?
    case Abort(w) => Valid(s, w) && !s.workers[w].pc.Finished?
    case Tamper(_, _, _, _, _) => s.writeLock.None?
    case Tick(_) => true
    case Crash => true
  }

  function ClaimStep(rules: Rules, s: State, w: nat, k: Id, a: Id): State
    requires InRunTransaction(s, w)
    requires CanClaim(rules, s.store, s.workers[w].job.sessionId, s.workers[w].job.proposalId, k, s.clock)
  {
    var job := s.workers[w].job;
    var context := DecisionContext(rules, s.store, job.sessionId, job.proposalId, s.clock).value;
    var action := ActionRow(job.sessionId, job.proposalId, k, context.validated.actionName,
                            Some(Stored(context.validated.arguments)), Running);
    var store := ClaimStore(s.store, k, a, action);
    var cache := Cache(Some(s.store.stop), Some(context.session), Some(context.target),
                       Lookup(s.store.proposals, job.proposalId), Some(action), Some(store.approvals[k]),
                       Lookup(s.store.policies, job.proposalId));
    Put(s, w, s.workers[w].(pc := Claimed, actionId := a, approvalId := k, cache := cache))
      .(store := store, writeLock := None)
  }

  function DecideStep(rules: Rules, s: State, w: nat, k: Id): State
    requires InDecideTransaction(s, w) && CanDecide(rules, s.store, s.workers[w].job, s.clock)
  {
    var job := s.workers[w].job;
    var context := DecisionContext(rules, s.store, job.sessionId, job.proposalId, s.clock).value;
    var scope := ScopeOf(rules, job.sessionId, job.proposalId, context.target, context.validated);
    MoveTo(s, w, Finished).(
      store := DecideStore(rules, s.store, job, k, s.clock),
      writeLock := None,
      decided := s.decided[k := DecisionRecord(scope, s.clock, context.session.expiresAt.value,
                                               context.target.expiresAt)])
  }

  function RefuseStep(s: State, w: nat): State
    requires Valid(s, w) && (s.workers[w].job.RunJob? || s.workers[w].job.DecideJob?)
  {
    MoveTo(s, w, Finished).(writeLock := None, store := RefusalStore(s.store, s.workers[w].job.sessionId, s.clock))
  }

  /** An exception nobody catches: the worker ends and its locks are released. */
  function AbortStep(s: State, w: nat): State
    requires Valid(s, w)
  {
    var pc := s.workers[w].pc;
    MoveTo(s, w, Finished).(
      writeLock := if HoldsWrite(pc) then None else s.writeLock,
      fenceLock := if HoldsFence(pc) then None else s.fenceLock)
  }

  function ReturnStep(s: State, w: nat, status: ActionStatus): State
    requires Valid(s, w)
  {
    Put(s, w, s.workers[w].(pc := AwaitPersist, outcome := status))
  }

  function NewWorker(job: Job): Worker {
    Worker(job, Begin, "", "", EMPTY_CACHE, None, Running)
  }

  function Step(rules: Rules, s: State, move: Move): State
    requires Enabled(rules, s, move)
  {
    match move
    case Spawn(job) => s.(workers := s.workers + [NewWorker(job)])
    case Advance(w) => AdvanceStep(rules, s, w)
    case Claim(w, k, a) => ClaimStep(rules, s, w, k, a)
    case Deny(w) => RefuseStep(s, w)
    case Decide(w, k) => DecideStep(rules, s, w, k)
    case DecideRefused(w) => RefuseStep(s, w)
    case Returned(w, status) => ReturnStep(s, w, status)
    case NoDispatcher(w) => ReturnStep(s, w, Failed)
    case Abort(w) => AbortStep(s, w)
    case Tamper(_, _, _, _, _) => s.(store := TamperStore(s.store, move))
    case Tick(seconds) => s.(clock := s.clock + seconds)
    case Crash => s.(stopped := false, fenceLock := None, writeLock := None, workers := [])
  }

  // ---------------------------------------------------------------- runs

  ghost predicate Runs(rules: Rules, s: State, moves: seq<Move>)
    decreases |moves|
  {
    moves == [] || (Enabled(rules, s, moves[0]) && Runs(rules, Step(rules, s, moves[0]), moves[1..]))
  }

  ghost function Exec(rules: Rules, s: State, moves: seq<Move>): State
    requires Runs(rules, s, moves)
    decreases |moves|
  {
    if moves == [] then s else Exec(rules, Step(rules, s, moves[0]), moves[1..])
  }

  /** A fresh process over a store with no decisions yet. */
  predicate Initial(s: State) {
    && s.store.approvals == map[] && s.store.actions == map[]
    && s.store.results == multiset{} && s.store.audit == multiset{}
    && !s.stopped && s.fenceLock.None? && s.writeLock.None? && s.workers == []
    && s.decided == map[] && s.starts == [] && s.dispatches == []
  }
}
