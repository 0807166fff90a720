/** The request handlers that change rows and the fence, written as they run: statements over the
    tables of one database, each proved equal to the transaction the protocol model uses. */
module GuardedService {
  import opened Wrappers
  import opened ProtectedRecord
  import opened ActionNames
  import opened GuardedExecution
  import opened GuardedExecutionInvariants
  import opened GuardedExecutionProgress
  import opened FinalCheck
  import opened RowByRow
  import opened DecisionHistory

  /** The unique column of the approvals table. */
  ghost predicate OneDecisionEach(store: Store) {
    forall k, l | k in store.approvals && l in store.approvals
      && store.approvals[k].proposalId == store.approvals[l].proposalId :: k == l
  }

  lemma ClaimedExactlyByOne(rules: Rules, store: Store, sessionId: Id, proposalId: Id, now: Time)
    requires OneDecisionEach(store)
    ensures forall k ::
      && (CanClaim(rules, store, sessionId, proposalId, k, now) ==>
            MayBeClaimed(rules, store, sessionId, proposalId, k, now))
      && (MayBeClaimed(rules, store, sessionId, proposalId, k, now) ==>
            CanClaim(rules, store, sessionId, proposalId, k, now))
    ensures forall k, l |
      && MayBeClaimed(rules, store, sessionId, proposalId, k, now)
      && MayBeClaimed(rules, store, sessionId, proposalId, l, now) :: k == l
  {
    forall k ensures CanClaim(rules, store, sessionId, proposalId, k, now)
        <==> MayBeClaimed(rules, store, sessionId, proposalId, k, now)
    {
      ClaimedExactly(rules, store, sessionId, proposalId, k, now);
    }
  }

  class Database {
    var sessions: map<Id, SessionRow>
    var targets: map<Id, TargetRow>
    var proposals: map<Id, ProposalRow>
    var policies: map<Id, bool>
    var approvals: map<Id, ApprovalRow>
    var actions: map<Id, ActionRow>
    var results: multiset<ResultRow>
    var audit: multiset<AuditEvent>
    var stop: bool

    ghost function Contents(): Store
      reads this
    {
      Store(sessions, targets, proposals, policies, approvals, actions, results, audit, stop)
    }

    constructor ()
      ensures Contents() == Store(map[], map[], map[], map[], map[], map[], multiset{}, multiset{}, false)
    {
      sessions, targets, proposals, policies := map[], map[], map[], map[];
      approvals, actions, results, audit, stop := map[], map[], multiset{}, multiset{}, false;
    }

    /** Still in one of its working states, and without an expiry in the future. */
    static predicate IsOverdue(row: SessionRow, now: Time) {
      && (row.state == Draft || row.state == Authorized || row.state == Ready || row.state == InProgress)
      && (row.expiresAt.Some? ==> row.expiresAt.value <= now)
    }

    /** Marks an overdue session, as every refusal that finds one does. */
    method RefuseOverdueSession(sessionId: Id, now: Time)
      modifies this`sessions
      ensures Contents() == RefusalStore(old(Contents()), sessionId, now)
      ensures sessions.Keys == old(sessions).Keys
      ensures forall id <- sessions ::
        sessions[id] == old(sessions)[id].(state := if id == sessionId && IsOverdue(old(sessions)[id], now) then Expired
                                                    else old(sessions)[id].state)
    {
      if sessionId in sessions {
        var item := sessions[sessionId];
        if !IsClosed(item) && HasExpired(item, now) {
          sessions := sessions[sessionId := item.(state := Expired)];
        }
      }
    }

    /** The gates shared by every decision and by the claim, in the order they are tried. */
    method ReadContext(rules: Rules, sessionId: Id, proposalId: Id, now: Time) returns (context: Option<Context>)
      ensures context == DecisionContext(rules, Contents(), sessionId, proposalId, now)
      ensures context.Some? <==> ScopeLive(rules, Contents(), sessionId, proposalId, now)
    {
      ContextIsLive(rules, Contents(), sessionId, proposalId, now);
      if sessionId !in sessions { return None; }
      var item := sessions[sessionId];
      if IsClosed(item) || HasExpired(item, now) { return None; }
      if sessionId !in targets { return None; }
      var target := targets[sessionId];
      if !item.confirmed || target.locked || target.expiresAt <= now || !rules.isPrivate(target.address) {
        return None;
      }
      if proposalId !in proposals { return None; }
      var proposal := proposals[proposalId];
      if proposal.sessionId != sessionId { return None; }
      var validated := rules.validate(proposal.content, target.id);
      if validated.None? { return None; }
      return Some(Context(item, target, validated.value));
    }

    predicate IsApprovalFor(k: Id, sessionId: Id, proposalId: Id, targetId: Id)
      requires k in approvals
      reads this
    {
      approvals[k].sessionId == sessionId && approvals[k].proposalId == proposalId && approvals[k].targetId == targetId
    }

    /** The one approval of this session, proposal and target, if there is one. */
    method FindApproval(sessionId: Id, proposalId: Id, targetId: Id) returns (found: Option<Id>)
      requires OneDecisionEach(Contents())
      ensures found.None? ==> forall k <- approvals :: !IsApprovalFor(k, sessionId, proposalId, targetId)
      ensures found.Some? ==>
        && found.value in approvals
        && (forall k <- approvals :: IsApprovalFor(k, sessionId, proposalId, targetId) <==> k == found.value)
    {
      if exists k <- approvals :: IsApprovalFor(k, sessionId, proposalId, targetId) {
        var k :| k in approvals && IsApprovalFor(k, sessionId, proposalId, targetId);
        return Some(k);
      }
      return None;
    }

    /** The rows of a claim: the approval is used, and the action runs and has its start event. */
    method WriteClaim(approvalId: Id, actionId: Id, action: ActionRow)
      requires approvalId in approvals
      modifies this`approvals, this`actions, this`audit
      ensures Contents() == ClaimStore(old(Contents()), approvalId, actionId, action)
    {
      approvals := approvals[approvalId := approvals[approvalId].(used := true)];
      actions := actions[actionId := action];
      audit := audit + multiset{ActionStarted(actionId)};
    }

    /** Claims an approval for one run, or refuses.  The claim is one transaction: it marks the
        approval used, adds the running action and its start event, and changes nothing else. */
    method ClaimAction(rules: Rules, sessionId: Id, proposalId: Id, actionId: Id, now: Time)
          returns (claimed: Option<Id>)
      requires OneDecisionEach(Contents()) && actionId !in actions
      modifies this
      ensures claimed.Some? ==> old(MayBeClaimed(rules, Contents(), sessionId, proposalId, claimed.value, now))
      ensures forall k | old(MayBeClaimed(rules, Contents(), sessionId, proposalId, k, now)) :: claimed == Some(k)
      ensures claimed.None? ==> Contents() == RefusalStore(old(Contents()), sessionId, now)
      ensures claimed.Some? ==>
        && old(CanClaim(rules, Contents(), sessionId, proposalId, claimed.value, now))
        && var context := old(DecisionContext(rules, Contents(), sessionId, proposalId, now)).value;
           Contents() == ClaimStore(old(Contents()), claimed.value, actionId,
             ActionRow(sessionId, proposalId, claimed.value, context.validated.actionName,
                       Some(Stored(context.validated.arguments)), Running))
    {
      ClaimedExactlyByOne(rules, Contents(), sessionId, proposalId, now);
      var context := ReadContext(rules, sessionId, proposalId, now);
      if context.None? {
        RefuseOverdueSession(sessionId, now);
        return None;
      }
      var target, validated := context.value.target, context.value.validated;
      var found := FindApproval(sessionId, proposalId, target.id);
      if found.None? {
        return None;
      }
      var k := found.value;
      var approval := approvals[k];
      if exists a <- actions :: actions[a].proposalId == proposalId || actions[a].approvalId == k {
        return None;
      }
      if proposalId !in policies || !policies[proposalId] {
        return None;
      }
      var scope := ScopeOf(rules, sessionId, proposalId, target, validated);
      if stop || approval.decision != Approved || approval.expiresAt <= now || approval.used
         || rules.hash(scope) != approval.protectedHash {
        return None;
      }
      WriteClaim(k, actionId, ActionRow(sessionId, proposalId, k, validated.actionName,
                                        Some(Stored(validated.arguments)), Running));
      return Some(k);
    }

    /** Writes the row of a decision that is allowed, with its expiry and its hash, and its event. */
    method WriteDecision(rules: Rules, job: Job, context: Context, approvalId: Id, now: Time)
      requires job.DecideJob? && CanDecide(rules, Contents(), job, now)
      requires Some(context) == DecisionContext(rules, Contents(), job.sessionId, job.proposalId, now)
      modifies this`approvals, this`audit
      ensures Contents() == DecideStore(rules, old(Contents()), job, approvalId, now)
      ensures approvalId in approvals && approvals == old(approvals)[approvalId := approvals[approvalId]]
      ensures var row := approvals[approvalId];
        && row.sessionId == job.sessionId && row.proposalId == job.proposalId && row.decision == job.decision
        && !row.used && DecidedFrom(rules, old(Contents()), row, now)
      ensures audit == old(audit) + multiset{DecisionRecorded(job.proposalId, job.decision)}
    {
      DecisionIsAsAsked(rules, Contents(), job, approvalId, now);
      var expiresAt := now + APPROVAL_TTL;
      if context.target.expiresAt < expiresAt {
        expiresAt := context.target.expiresAt;
      }
      if context.session.expiresAt.value < expiresAt {
        expiresAt := context.session.expiresAt.value;
      }
      var scope := ScopeOf(rules, job.sessionId, job.proposalId, context.target, context.validated);
      approvals := approvals[approvalId := ApprovalRow(
        job.sessionId, job.proposalId, context.target.id, job.decision, rules.hash(scope), expiresAt, false)];
      audit := audit + multiset{DecisionRecorded(job.proposalId, job.decision)};
    }

    /** Records one decision, or refuses; a rejection needs neither a policy nor a clear stop. */
    method RecordDecision(rules: Rules, job: Job, approvalId: Id, now: Time) returns (recorded: bool)
      requires job.DecideJob? && approvalId !in approvals
      modifies this
      ensures recorded <==> old(MayBeDecided(rules, Contents(), job.sessionId, job.proposalId, job.decision, now))
      ensures recorded ==>
        && old(CanDecide(rules, Contents(), job, now))
        && Contents() == old(DecideStore(rules, Contents(), job, approvalId, now))
      ensures recorded ==>
        && approvalId in approvals && approvals == old(approvals)[approvalId := approvals[approvalId]]
        && var row := approvals[approvalId];
        && row.sessionId == job.sessionId && row.proposalId == job.proposalId && row.decision == job.decision
        && !row.used && DecidedFrom(rules, old(Contents()), row, now)
        && audit == old(audit) + multiset{DecisionRecorded(job.proposalId, job.decision)}
      ensures !recorded ==> Contents() == RefusalStore(old(Contents()), job.sessionId, now)
    {
      DecidedExactly(rules, Contents(), job, now);
      var context := ReadContext(rules, job.sessionId, job.proposalId, now);
      if context.None? {
        RefuseOverdueSession(job.sessionId, now);
        return false;
      }
      if job.decision == Approved && stop {
        return false;
      }
      if exists k <- approvals :: approvals[k].proposalId == job.proposalId {
        return false;
      }
      if job.decision == Approved && (job.proposalId !in policies || !policies[job.proposalId]) {
        return false;
      }
      WriteDecision(rules, job, context.value, approvalId, now);
      return true;
    }

    /** Records the outcome of a run whose action has a parser by the name in its row now; under another
        name the lookup raises before anything is written. */
    method RecordOutcome(actionId: Id, status: ActionStatus) returns (recorded: bool)
      requires actionId in actions
      modifies this
      ensures recorded <==> IsRegistered(old(actions[actionId].name))
      ensures Contents() == Left(old(Contents()), actionId, status)
    {
      if !IsRegistered(actions[actionId].name) {
        return false;
      }
      PersistResult(actionId, status);
      return true;
    }

    /** Stores the outcome of a run: status, result and finish event together, so that the lifecycle of
        a running action is kept. */
    method PersistResult(actionId: Id, status: ActionStatus)
      requires actionId in actions
      modifies this
      ensures Contents() == PersistStore(old(Contents()), actionId, status)
      ensures old(Lifecycle(Contents()) && actions[actionId].status == Running) && status != Running ==>
        Lifecycle(Contents())
    {
      ghost var before := Contents();
      actions := actions[actionId := actions[actionId].(status := status)];
      results := results + multiset{ResultRow(actionId, status)};
      audit := audit + multiset{ActionFinished(actionId, status)};
      assert Contents() == PersistStore(before, actionId, status);
      if before.actions[actionId].status == Running && status != Running && Lifecycle(before) {
        PersistKeepsLifecycle(before, actionId, status);
      }
    }
  }

  /** Other transactions that run between two of a worker's own. */
  method Meanwhile(db: Database, change: Move)
    requires change.Tamper?
    modifies db
    ensures db.Contents() == TamperStore(old(db.Contents()), change)
  {
    db.sessions, db.targets := change.sessions, change.targets;
    db.proposals, db.policies := change.proposals, change.policies;
    db.actions := map a | a in db.actions ::
      if a in change.contents
      then db.actions[a].(name := change.contents[a].0, arguments := change.contents[a].1)
      else db.actions[a];
  }

  /** The rows one worker's session has in memory.  Commits do not empty it. */
  class OrmSession {
    var cache: Cache

    constructor ()
      ensures cache == EMPTY_CACHE
    {
      cache := EMPTY_CACHE;
    }

    /** Rows that a transaction has read stay in the session after its commit. */
    method KeepRows(rows: Cache)
      modifies this
      ensures cache == rows
    {
      cache := rows;
    }

    method ExpireAll()
      modifies this
      ensures cache == EMPTY_CACHE
    {
      cache := EMPTY_CACHE;
    }
  }

  class ExecutionFence {
    var stopped: bool

    constructor ()
      ensures !stopped
    {
      stopped := false;
    }

    /** The flag goes up before the stop is stored and stays up when storing it fails. */
    method Activate(db: Database, fails: bool) returns (active: Option<bool>)
      modifies this, db
      ensures stopped
      ensures active == if fails then None else Some(true)
      ensures db.Contents() == if fails then old(db.Contents()) else old(db.Contents()).(stop := true)
    {
      stopped := true;
      if fails {
        return None;
      }
      if !db.stop {
        db.stop := true;
      }
      return Some(db.stop);
    }

    /** The flag goes down only after the clear is stored. */
    method Clear(db: Database, fails: bool) returns (active: Option<bool>)
      modifies this, db
      ensures stopped == (fails && old(stopped))
      ensures active == if fails then None else Some(false)
      ensures db.Contents() == if fails then old(db.Contents()) else old(db.Contents()).(stop := false)
    {
      if fails {
        return None;
      }
      db.stop := false;
      stopped := false;
      return Some(db.stop);
    }

    /** Answers whether a claimed run may start.  The flag alone refuses; otherwise the rows are read
        one by one, and a stop found in the store raises the flag. */
    method TryStart(rules: Rules, db: Database, orm: OrmSession, claimed: Worker, now: Time)
          returns (result: CheckResult)
      requires claimed.job.RunJob?
      modifies this, orm
      ensures old(stopped) ==> result.NotAllowed? && stopped
      ensures !old(stopped) ==>
        && result == old(CheckFrom(rules, db.Contents(), now, claimed.(cache := orm.cache), StopRead))
        && stopped == result.NotAllowed?
      ensures !old(stopped) && old(orm.cache) == EMPTY_CACHE ==>
        && (result.Allowed? <==> MayStart(rules, db.Contents(), now, claimed))
        && (result.NotAllowed? <==> db.stop)
    {
      if stopped {
        return NotAllowed;
      }
      ghost var before := claimed.(cache := orm.cache);
      ghost var wasEmpty := orm.cache == EMPTY_CACHE;
      result := Raised(false);
      var phase := StopRead;
      var checking := true;
      while checking
        invariant !stopped
        invariant checking ==>
          CheckFrom(rules, db.Contents(), now, before, StopRead)
            == CheckFrom(rules, db.Contents(), now, claimed.(cache := orm.cache), phase)
        invariant !checking ==> result == CheckFrom(rules, db.Contents(), now, before, StopRead)
        decreases checking, PhaseRank(phase)
      {
        var worker := claimed.(cache := orm.cache);
        var read := ReadPhase(rules, Store(db.sessions, db.targets, db.proposals, db.policies, db.approvals, db.actions,
                                           db.results, db.audit, db.stop), now, worker, phase);
        match read {
          case Stopped => result := NotAllowed; checking := false;
          case Raise => result := Raised(false); checking := false;
          case RaiseAfterWrite(marks) => result := Raised(marks); checking := false;
          case Continue(cache) =>
            if phase != Verdict {
              orm.cache := cache;
              phase := NextPhase(phase);
            } else {
              result := if CanGrant(rules, worker) then Allowed(MakeGrant(rules, worker, now)) else Raised(false);
              checking := false;
            }
        }
      }
      if result.NotAllowed? {
        stopped := true;
      }
      if wasEmpty {
        CheckAcceptsExactlyStartable(rules, db.Contents(), now, before);
      }
    }
  }

  // ---------------------------------------------------------------- one run from claim to result

  lemma DecidedIsClaimable(rules: Rules, before: Store, job: Job, k: Id, now: Time, change: Move, later: Time)
    requires Claims(before) && change.Tamper? && job.DecideJob? && job.decision == Approved && k !in before.approvals
    requires CanDecide(rules, before, job, now)
    requires RowsKept(before, TamperStore(before, change), job.sessionId, job.proposalId)
    requires later < DecideStore(rules, before, job, k, now).approvals[k].expiresAt
    ensures var changed := TamperStore(DecideStore(rules, before, job, k, now), change);
      MayBeClaimed(rules, changed, job.sessionId, job.proposalId, k, later)
  {
    var decided := DecideStore(rules, before, job, k, now);
    var changed := TamperStore(decided, change);
    DecisionIsAsAsked(rules, before, job, k, now);
    DecideKeepsClaims(before, decided);
    ClaimsFromSameKeys(decided, changed);
    forall a <- changed.actions ensures changed.actions[a].proposalId != job.proposalId {
      assert ClaimOk(before, before.actions[a]);
    }
    KeptApprovalIsClaimable(rules, before, changed, k, now, later);
    ClaimedExactly(rules, changed, job.sessionId, job.proposalId, k, later);
  }

  /** An approval and a run request in turn, with other transactions in between: if these leave the rows of
      the proposal as they are and the approval has not expired, what was approved is claimed, whatever
      actions of other proposals there are. */
  method ApproveThenClaim(rules: Rules, db: Database, sessionId: Id, proposalId: Id, approvalId: Id, actionId: Id,
                          now: Time, change: Move, later: Time)
      returns (recorded: bool, expiresAt: Time, claimed: Option<Id>)
    requires OneDecisionEach(db.Contents()) && approvalId !in db.approvals && actionId !in db.actions
    requires Claims(db.Contents()) && change.Tamper?
    modifies db
    ensures recorded <==> old(MayBeDecided(rules, db.Contents(), sessionId, proposalId, Approved, now))
    ensures recorded ==>
      var before := old(db.Contents());
      && IsLeast(expiresAt, before.sessions[sessionId].expiresAt.value, before.targets[sessionId].expiresAt, now + 900)
      && (RowsKept(before, TamperStore(before, change), sessionId, proposalId) && later < expiresAt ==>
            claimed == Some(approvalId))
  {
    claimed, expiresAt := None, now;
    ghost var before := db.Contents();
    recorded := db.RecordDecision(rules, DecideJob(sessionId, proposalId, Approved), approvalId, now);
    if recorded {
      expiresAt := db.approvals[approvalId].expiresAt;
      Meanwhile(db, change);
      if RowsKept(before, TamperStore(before, change), sessionId, proposalId) && later < expiresAt {
        DecidedIsClaimable(rules, before, DecideJob(sessionId, proposalId, Approved), approvalId, now, change, later);
      }
      claimed := db.ClaimAction(rules, sessionId, proposalId, actionId, later);
    }
  }

  datatype RunOutcome =
    | Refused
    | NotStarted(approvalId: Id, recorded: bool)
    | Started(approvalId: Id, grant: Grant, recorded: bool)

  function ClaimedWorker(sessionId: Id, proposalId: Id, approvalId: Id, actionId: Id): Worker {
    Worker(RunJob(sessionId, proposalId), AwaitFence, actionId, approvalId, EMPTY_CACHE, None, Running)
  }

  /** The store after a claim, and after what other transactions changed since. */
  function AfterClaim(rules: Rules, store: Store, sessionId: Id, proposalId: Id, approvalId: Id, actionId: Id,
                      now: Time, change: Move): Store
    requires change.Tamper? && CanClaim(rules, store, sessionId, proposalId, approvalId, now)
  {
    var validated := DecisionContext(rules, store, sessionId, proposalId, now).value.validated;
    var action := ActionRow(sessionId, proposalId, approvalId, validated.actionName,
                            Some(Stored(validated.arguments)), Running);
    TamperStore(ClaimStore(store, approvalId, actionId, action), change)
  }

  /** What a run with this outcome leaves in the database: its outcome is recorded exactly if the action
      row has a registered name by then, and otherwise nothing is. */
  ghost predicate Leaves(outcome: RunOutcome, before: Store, after: Store, actionId: Id, answer: Option<ActionStatus>)
    requires !outcome.Refused? && actionId in before.actions
  {
    var status := if outcome.NotStarted? then Cancelled else if answer.Some? then answer.value else Failed;
    && (outcome.recorded <==> IsRegistered(before.actions[actionId].name))
    && after == Left(before, actionId, status)
  }

  /** The second half of a run: final check, dispatch and result.  `answer` is what the dispatcher gives,
      if there is one; `during` is what other transactions do before the result is recorded. */
  method StartOrCancel(rules: Rules, db: Database, fence: ExecutionFence, orm: OrmSession, worker: Worker,
                       now: Time, during: Move, answer: Option<ActionStatus>) returns (outcome: RunOutcome)
    requires worker.job.RunJob? && worker.actionId in db.actions && orm.cache == EMPTY_CACHE && during.Tamper?
    modifies db, fence, orm
    ensures !outcome.Refused? && outcome.approvalId == worker.approvalId
    ensures var store := old(db.Contents());
      && (outcome.Started? <==> !old(fence.stopped) && MayStart(rules, store, now, worker))
      && fence.stopped == (old(fence.stopped) || store.stop)
      && (outcome.Started? ==> outcome.grant == GrantOver(rules, store, now, worker))
      && (outcome.Started? && RegisteredOnly(rules) ==> IsRegistered(store.actions[worker.actionId].name))
      && Leaves(outcome, TamperStore(Checked(store, old(fence.stopped), worker.job.sessionId, now), during),
                db.Contents(), worker.actionId, answer)
  {
    ghost var store := db.Contents();
    var check := fence.TryStart(rules, db, orm, worker, now);
    CheckAcceptsExactlyStartable(rules, store, now, worker.(cache := EMPTY_CACHE));
    OverdueIsMarked(rules, store, now, worker.(cache := EMPTY_CACHE));
    if check == Raised(true) {
      db.RefuseOverdueSession(worker.job.sessionId, now);
    }
    Meanwhile(db, during);
    if check.Allowed? {
      var recorded := db.RecordOutcome(worker.actionId, if answer.Some? then answer.value else Failed);
      return Started(worker.approvalId, check.grant, recorded);
    }
    var recorded := db.RecordOutcome(worker.actionId, Cancelled);
    return NotStarted(worker.approvalId, recorded);
  }

  /** Runs one approved action: claim, forget the claim's rows, final check, dispatch, result.  `change` is
      what other transactions do between claim and check, and `during` what they do between check and
      result.  The run starts exactly when it could be claimed, the flag is down, and the rows as they are
      at the check allow it; its outcome is recorded exactly if its action row still has a registered name
      at the end. */
  method RunApprovedAction(rules: Rules, db: Database, fence: ExecutionFence, sessionId: Id, proposalId: Id,
                           actionId: Id, now: Time, change: Move, during: Move, answer: Option<ActionStatus>)
        returns (outcome: RunOutcome)
    requires OneDecisionEach(db.Contents()) && actionId !in db.actions && change.Tamper? && during.Tamper?
    modifies db, fence
    ensures outcome.Refused? ==>
      && (forall k :: !old(MayBeClaimed(rules, db.Contents(), sessionId, proposalId, k, now)))
      && db.Contents() == old(RefusalStore(db.Contents(), sessionId, now)) && fence.stopped == old(fence.stopped)
    ensures !outcome.Refused? ==>
      && old(MayBeClaimed(rules, db.Contents(), sessionId, proposalId, outcome.approvalId, now))
      && old(CanClaim(rules, db.Contents(), sessionId, proposalId, outcome.approvalId, now))
      && var store := old(AfterClaim(rules, db.Contents(), sessionId, proposalId, outcome.approvalId, actionId,
                                     now, change));
         var worker := ClaimedWorker(sessionId, proposalId, outcome.approvalId, actionId);
      && (outcome.Started? <==> !old(fence.stopped) && MayStart(rules, store, now, worker))
      && fence.stopped == (old(fence.stopped) || store.stop)
      && (outcome.Started? ==> outcome.grant == GrantOver(rules, store, now, worker))
      && (outcome.Started? && RegisteredOnly(rules) ==> IsRegistered(store.actions[actionId].name))
      && Leaves(outcome, TamperStore(Checked(store, old(fence.stopped), sessionId, now), during), db.Contents(),
                actionId, answer)
  {
    var claimed := db.ClaimAction(rules, sessionId, proposalId, actionId, now);
    if claimed.None? {
      return Refused;
    }
    var k := claimed.value;
    var orm := new OrmSession();
    orm.KeepRows(Cache(Some(db.stop), Lookup(db.sessions, sessionId), Lookup(db.targets, sessionId),
                       Lookup(db.proposals, proposalId), Some(db.actions[actionId]), Some(db.approvals[k]),
                       Lookup(db.policies, proposalId)));
    orm.ExpireAll();
    Meanwhile(db, change);
    outcome := StartOrCancel(rules, db, fence, orm, ClaimedWorker(sessionId, proposalId, k, actionId), now, during,
                             answer);
  }
}
