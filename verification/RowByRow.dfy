/** When a decision, a claim and a start are allowed, said column by column, without the tests that the
    program makes on the way. */
module RowByRow {
  import opened ProtectedRecord
  import opened GuardedExecution
  import opened FinalCheck

  predicate SessionLive(row: SessionRow, now: Time) {
    && (row.state == Draft || row.state == Authorized || row.state == Ready || row.state == InProgress)
    && row.confirmed
    && row.expiresAt.Some? && now < row.expiresAt.value
  }

  predicate TargetLive(rules: Rules, row: TargetRow, now: Time) {
    !row.locked && now < row.expiresAt && rules.isPrivate(row.address)
  }

  /** Session, target and proposal belong together, are live, and the proposal validates. */
  predicate ScopeLive(rules: Rules, store: Store, sessionId: Id, proposalId: Id, now: Time) {
    && sessionId in store.sessions && SessionLive(store.sessions[sessionId], now)
    && sessionId in store.targets && TargetLive(rules, store.targets[sessionId], now)
    && proposalId in store.proposals && store.proposals[proposalId].sessionId == sessionId
    && rules.validate(store.proposals[proposalId].content, store.targets[sessionId].id).Some?
  }

  /** What an approval of these rows is bound to. */
  function LiveScope(rules: Rules, store: Store, sessionId: Id, proposalId: Id, now: Time): Scope
    requires ScopeLive(rules, store, sessionId, proposalId, now)
  {
    var target := store.targets[sessionId];
    var validated := rules.validate(store.proposals[proposalId].content, target.id).value;
    Scope(sessionId, target.id, rules.canonical(target.address), proposalId, validated.actionName, validated.arguments)
  }

  predicate PolicyAllows(store: Store, proposalId: Id) {
    proposalId in store.policies && store.policies[proposalId]
  }

  /** A proposal is decided once; a rejection needs neither the policy nor a clear stop. */
  predicate MayBeDecided(rules: Rules, store: Store, sessionId: Id, proposalId: Id, decision: Decision, now: Time) {
    && ScopeLive(rules, store, sessionId, proposalId, now)
    && (forall k <- store.approvals :: store.approvals[k].proposalId != proposalId)
    && (decision == Approved ==> !store.stop && PolicyAllows(store, proposalId))
  }

  /** The approval row is a live approval of what the rows say now. */
  predicate ApprovalLive(rules: Rules, store: Store, sessionId: Id, proposalId: Id, approvalId: Id, now: Time)
    requires ScopeLive(rules, store, sessionId, proposalId, now)
  {
    && approvalId in store.approvals
    && var row := store.approvals[approvalId];
    && row.decision == Approved && now < row.expiresAt
    && row.sessionId == sessionId && row.proposalId == proposalId && row.targetId == store.targets[sessionId].id
    && row.protectedHash == rules.hash(LiveScope(rules, store, sessionId, proposalId, now))
  }

  /** Unused, and without any action of this proposal or of this approval; actions of other proposals of the
      same session do not matter. */
  predicate MayBeClaimed(rules: Rules, store: Store, sessionId: Id, proposalId: Id, approvalId: Id, now: Time) {
    && !store.stop
    && ScopeLive(rules, store, sessionId, proposalId, now) && PolicyAllows(store, proposalId)
    && ApprovalLive(rules, store, sessionId, proposalId, approvalId, now)
    && !store.approvals[approvalId].used
    && (forall a <- store.actions ::
          store.actions[a].proposalId != proposalId && store.actions[a].approvalId != approvalId)
  }

  /** The claimed action is as the claim left it, up to how its numbers are written, under its used approval. */
  predicate MayBeStarted(rules: Rules, store: Store, worker: Worker, now: Time)
    requires worker.job.RunJob?
  {
    var sessionId, proposalId := worker.job.sessionId, worker.job.proposalId;
    && !store.stop
    && ScopeLive(rules, store, sessionId, proposalId, now) && PolicyAllows(store, proposalId)
    && ApprovalLive(rules, store, sessionId, proposalId, worker.approvalId, now)
    && store.approvals[worker.approvalId].used
    && worker.actionId in store.actions
    && var action := store.actions[worker.actionId];
    && action.status == Running
    && action.sessionId == sessionId && action.proposalId == proposalId && action.approvalId == worker.approvalId
    && action.name == LiveScope(rules, store, sessionId, proposalId, now).actionName
    && action.arguments.Some?
    && Matches(action.arguments.value, LiveScope(rules, store, sessionId, proposalId, now).arguments)
  }

  // ---------------------------------------------------------------- the program's tests are exactly these

  /** The gates passed one after the other leave exactly the live scopes. */
  lemma ContextIsLive(rules: Rules, store: Store, sessionId: Id, proposalId: Id, now: Time)
    ensures DecisionContext(rules, store, sessionId, proposalId, now).Some?
      <==> ScopeLive(rules, store, sessionId, proposalId, now)
    ensures ScopeLive(rules, store, sessionId, proposalId, now) ==>
      var context := DecisionContext(rules, store, sessionId, proposalId, now).value;
      && context.session == store.sessions[sessionId] && context.target == store.targets[sessionId]
      && ScopeOf(rules, sessionId, proposalId, context.target, context.validated)
           == LiveScope(rules, store, sessionId, proposalId, now)
  {
  }

  lemma DecidedExactly(rules: Rules, store: Store, job: Job, now: Time)
    requires job.DecideJob?
    ensures CanDecide(rules, store, job, now)
      <==> MayBeDecided(rules, store, job.sessionId, job.proposalId, job.decision, now)
  {
    ContextIsLive(rules, store, job.sessionId, job.proposalId, now);
  }

  lemma ClaimedExactly(rules: Rules, store: Store, sessionId: Id, proposalId: Id, approvalId: Id, now: Time)
    ensures CanClaim(rules, store, sessionId, proposalId, approvalId, now)
      <==> MayBeClaimed(rules, store, sessionId, proposalId, approvalId, now)
  {
    ContextIsLive(rules, store, sessionId, proposalId, now);
  }

  lemma StartedExactly(rules: Rules, store: Store, now: Time, worker: Worker)
    requires worker.job.RunJob?
    ensures MayStart(rules, store, now, worker) <==> MayBeStarted(rules, store, worker, now)
  {
    ContextIsLive(rules, store, worker.job.sessionId, worker.job.proposalId, now);
  }

  // ---------------------------------------------------------------- rows of others

  /** Everything that concerns one session, proposal and approval is the same in both stores. */
  ghost predicate SameRows(a: Store, b: Store, sessionId: Id, proposalId: Id, approvalId: Id) {
    && a.stop == b.stop
    && Lookup(a.sessions, sessionId) == Lookup(b.sessions, sessionId)
    && Lookup(a.targets, sessionId) == Lookup(b.targets, sessionId)
    && Lookup(a.proposals, proposalId) == Lookup(b.proposals, proposalId)
    && Lookup(a.policies, proposalId) == Lookup(b.policies, proposalId)
    && Lookup(a.approvals, approvalId) == Lookup(b.approvals, approvalId)
  }

  ghost predicate HasOwnAction(store: Store, proposalId: Id, approvalId: Id) {
    exists x :: x in store.actions
      && (store.actions[x].proposalId == proposalId || store.actions[x].approvalId == approvalId)
  }

  /** Sessions, proposals, approvals and actions of others do not change whether a claim succeeds. */
  lemma OthersDoNotMatter(rules: Rules, a: Store, b: Store, sessionId: Id, proposalId: Id, approvalId: Id, now: Time)
    requires SameRows(a, b, sessionId, proposalId, approvalId)
    requires HasOwnAction(a, proposalId, approvalId) <==> HasOwnAction(b, proposalId, approvalId)
    ensures CanClaim(rules, a, sessionId, proposalId, approvalId, now)
      <==> CanClaim(rules, b, sessionId, proposalId, approvalId, now)
  {
    ClaimedExactly(rules, a, sessionId, proposalId, approvalId, now);
    ClaimedExactly(rules, b, sessionId, proposalId, approvalId, now);
    assert Lookup(a.sessions, sessionId).Some? <==> sessionId in a.sessions;
  }
}
