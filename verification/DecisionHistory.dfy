/** Where each decision comes from, and what an approval is good for, over whole runs. */
module DecisionHistory {
  import opened Wrappers
  import opened GuardedExecution
  import opened GuardedExecutionInvariants
  import opened GuardedExecutionTheorems
  import opened GuardedExecutionProgress
  import opened FinalCheck
  import opened RowByRow
  import opened SessionCache

  // ---------------------------------------------------------------- every decision was allowed when it was made

  lemma AddedByDecide(rules: Rules, s: State, move: Move, k: Id)
    requires Enabled(rules, s, move) && k !in s.store.approvals && k in Step(rules, s, move).store.approvals
    ensures move.Decide? && move.approvalId == k
  {
    StepWrites(rules, s, move);
  }

  /** The step of a run that recorded decision `k`. */
  lemma {:induction false} DecisionHasStep(rules: Rules, states: seq<State>, moves: seq<Move>, k: Id, n: nat)
        returns (j: nat)
    requires Trace(rules, states, moves) && Initial(states[0])
    requires n < |states| && k in states[n].store.approvals
    ensures j < n && moves[j].Decide? && moves[j].approvalId == k
  {
    if n == 0 {
      assert false;
    } else if k in states[n - 1].store.approvals {
      j := DecisionHasStep(rules, states, moves, k, n - 1);
    } else {
      AddedByDecide(rules, states[n - 1], moves[n - 1], k);
      j := n - 1;
    }
  }

  /** From then on the row only gets its use mark. */
  lemma {:induction false} RowStays(rules: Rules, states: seq<State>, moves: seq<Move>, k: Id, i: nat, n: nat)
    requires Trace(rules, states, moves) && Inv(rules, states[0])
    requires i <= n < |states| && k in states[i].store.approvals
    ensures k in states[n].store.approvals
    ensures var was, row := states[i].store.approvals[k], states[n].store.approvals[k]; row.(used := was.used) == was
    decreases n - i
  {
    if i == n {
    } else {
      TraceKeepsInv(rules, states, moves, i);
      DecisionStays(rules, states[i], moves[i], k);
      RowStays(rules, states, moves, k, i + 1, n);
    }
  }

  /** The least of the three bounds, said as a bound that is reached. */
  predicate IsLeast(x: Time, a: Time, b: Time, c: Time) {
    x <= a && x <= b && x <= c && (x == a || x == b || x == c)
  }

  /** The row is what the rows of `store` gave at time `now`. */
  ghost predicate DecidedFrom(rules: Rules, store: Store, row: ApprovalRow, now: Time) {
    && MayBeDecided(rules, store, row.sessionId, row.proposalId, row.decision, now)
    && row.targetId == store.targets[row.sessionId].id
    && row.protectedHash == rules.hash(LiveScope(rules, store, row.sessionId, row.proposalId, now))
    && IsLeast(row.expiresAt, store.sessions[row.sessionId].expiresAt.value, store.targets[row.sessionId].expiresAt,
               now + 900)
  }

  lemma DecisionIsAsAsked(rules: Rules, store: Store, job: Job, k: Id, now: Time)
    requires job.DecideJob? && CanDecide(rules, store, job, now)
    ensures var after := DecideStore(rules, store, job, k, now);
      && k in after.approvals && after.approvals == store.approvals[k := after.approvals[k]]
      && var row := after.approvals[k];
      && row.sessionId == job.sessionId && row.proposalId == job.proposalId && row.decision == job.decision && !row.used
      && DecidedFrom(rules, store, row, now)
      && after.audit == store.audit + multiset{DecisionRecorded(job.proposalId, job.decision)}
  {
    DecidedExactly(rules, store, job, now);
    ContextIsLive(rules, store, job.sessionId, job.proposalId, now);
  }

  lemma DecideWritesRow(rules: Rules, s: State, w: nat, k: Id)
    requires Enabled(rules, s, Decide(w, k))
    ensures var t := Step(rules, s, Decide(w, k)); var job := s.workers[w].job;
      && k in t.store.approvals
      && var row := t.store.approvals[k];
      && row.sessionId == job.sessionId && row.proposalId == job.proposalId && row.decision == job.decision && !row.used
      && DecidedFrom(rules, s.store, row, s.clock)
      && t.store.audit == s.store.audit + multiset{DecisionRecorded(job.proposalId, job.decision)}
  {
    DecisionIsAsAsked(rules, s.store, s.workers[w].job, k, s.clock);
  }

  /** Over every run, each decision in the store was recorded in one step for a request that asked for it,
      and in that step its session was open, confirmed and unexpired, its target unlocked, unexpired and
      private, its proposal valid and undecided, and for an approval the newest policy allowed it and no
      stop was active; its hash and its expiry are those of that moment. */
  lemma EveryDecisionWasAllowed(rules: Rules, states: seq<State>, moves: seq<Move>, k: Id) returns (j: nat)
    requires Trace(rules, states, moves) && Initial(states[0]) && k in states[|moves|].store.approvals
    ensures j < |moves| && moves[j].Decide? && moves[j].approvalId == k && Valid(states[j], moves[j].worker)
    ensures var row := states[|moves|].store.approvals[k];
      && states[j].workers[moves[j].worker].job == DecideJob(row.sessionId, row.proposalId, row.decision)
      && DecidedFrom(rules, states[j].store, row, states[j].clock)
  {
    j := DecisionHasStep(rules, states, moves, k, |moves|);
    InitialInv(rules, states[0]);
    DecideWritesRow(rules, states[j], moves[j].worker, k);
    RowStays(rules, states, moves, k, j + 1, |moves|);
  }

  // ---------------------------------------------------------------- every decision left its event

  ghost predicate HasDecision(store: Store, proposalId: Id, decision: Decision) {
    exists k :: k in store.approvals
      && store.approvals[k].proposalId == proposalId && store.approvals[k].decision == decision
  }

  /** One event for each decision, and none without. */
  ghost predicate DecisionEvents(store: Store) {
    forall p, d :: store.audit[DecisionRecorded(p, d)] == if HasDecision(store, p, d) then 1 else 0
  }

  lemma SameDecisions(a: Store, b: Store)
    requires DecisionEvents(a)
    requires a.approvals.Keys == b.approvals.Keys
    requires forall k <- a.approvals :: b.approvals[k].(used := a.approvals[k].used) == a.approvals[k]
    requires forall p, d :: b.audit[DecisionRecorded(p, d)] == a.audit[DecisionRecorded(p, d)]
    ensures DecisionEvents(b)
  {
    forall p, d ensures HasDecision(b, p, d) <==> HasDecision(a, p, d) {
    }
  }

  lemma DecideAddsEvent(rules: Rules, s: State, w: nat, k: Id)
    requires Enabled(rules, s, Decide(w, k)) && DecisionEvents(s.store)
    ensures DecisionEvents(Step(rules, s, Decide(w, k)).store)
  {
    DecideWritesRow(rules, s, w, k);
    var t := Step(rules, s, Decide(w, k));
    forall p, d ensures HasDecision(t.store, p, d) <==>
        HasDecision(s.store, p, d) || (p == t.store.approvals[k].proposalId && d == t.store.approvals[k].decision)
    {
      if HasDecision(s.store, p, d) {
        var l :| l in s.store.approvals && s.store.approvals[l].proposalId == p && s.store.approvals[l].decision == d;
        assert t.store.approvals[l] == s.store.approvals[l];
      }
    }
  }

  lemma OtherStepsKeepEvents(rules: Rules, s: State, move: Move)
    requires Enabled(rules, s, move) && !move.Decide? && DecisionEvents(s.store)
    ensures DecisionEvents(Step(rules, s, move).store)
  {
    StepWrites(rules, s, move);
    SameDecisions(s.store, Step(rules, s, move).store);
  }

  lemma {:induction false} DecisionsLeaveEvents(rules: Rules, s: State, moves: seq<Move>)
    requires DecisionEvents(s.store) && Runs(rules, s, moves)
    ensures DecisionEvents(Exec(rules, s, moves).store)
    decreases |moves|
  {
    if moves == [] {
    } else {
      if moves[0].Decide? {
        DecideAddsEvent(rules, s, moves[0].worker, moves[0].approvalId);
      } else {
        OtherStepsKeepEvents(rules, s, moves[0]);
      }
      DecisionsLeaveEvents(rules, Step(rules, s, moves[0]), moves[1..]);
    }
  }

  /** In every reachable store the events of decisions are exactly those of the decisions there are. */
  lemma DecisionsAreAudited(rules: Rules, s: State, moves: seq<Move>)
    requires Initial(s) && Runs(rules, s, moves)
    ensures DecisionEvents(Exec(rules, s, moves).store)
  {
    DecisionsLeaveEvents(rules, s, moves);
  }

  // ---------------------------------------------------------------- what is approved can be run

  /** The rows that a decision was made over are there unchanged. */
  ghost predicate RowsKept(a: Store, b: Store, sessionId: Id, proposalId: Id) {
    && Lookup(a.sessions, sessionId) == Lookup(b.sessions, sessionId)
    && Lookup(a.targets, sessionId) == Lookup(b.targets, sessionId)
    && Lookup(a.proposals, proposalId) == Lookup(b.proposals, proposalId)
    && Lookup(a.policies, proposalId) == Lookup(b.policies, proposalId)
  }

  ghost predicate NoActionOf(store: Store, proposalId: Id) {
    forall a <- store.actions :: store.actions[a].proposalId != proposalId
  }

  /** The same rows before the expiry that they gave are as live as they were. */
  lemma KeptRowsStayLive(rules: Rules, before: Store, store: Store, row: ApprovalRow, at: Time, now: Time)
    requires DecidedFrom(rules, before, row, at) && row.decision == Approved
    requires RowsKept(before, store, row.sessionId, row.proposalId) && now < row.expiresAt
    ensures ScopeLive(rules, store, row.sessionId, row.proposalId, now)
    ensures LiveScope(rules, store, row.sessionId, row.proposalId, now)
      == LiveScope(rules, before, row.sessionId, row.proposalId, at)
    ensures store.targets[row.sessionId].id == row.targetId && PolicyAllows(store, row.proposalId)
  {
    assert Lookup(store.sessions, row.sessionId) == Some(before.sessions[row.sessionId]);
    assert Lookup(store.targets, row.sessionId) == Some(before.targets[row.sessionId]);
    assert Lookup(store.proposals, row.proposalId) == Some(before.proposals[row.proposalId]);
    assert Lookup(store.policies, row.proposalId) == Some(before.policies[row.proposalId]);
  }

  /** A recorded approval whose rows are unchanged, before its expiry, without a stop and without an action of
      its own proposal, can be claimed: whatever other actions there are. */
  lemma KeptApprovalIsClaimable(rules: Rules, before: Store, store: Store, k: Id, at: Time, now: Time)
    requires Claims(store) && k in store.approvals && store.approvals[k].decision == Approved
    requires DecidedFrom(rules, before, store.approvals[k], at)
    requires RowsKept(before, store, store.approvals[k].sessionId, store.approvals[k].proposalId)
    requires !store.stop && now < store.approvals[k].expiresAt && NoActionOf(store, store.approvals[k].proposalId)
    ensures CanClaim(rules, store, store.approvals[k].sessionId, store.approvals[k].proposalId, k, now)
  {
    var row := store.approvals[k];
    KeptRowsStayLive(rules, before, store, row, at, now);
    forall a <- store.actions ensures store.actions[a].approvalId != k {
      assert ClaimOk(store, store.actions[a]);
    }
    ClaimedExactly(rules, store, row.sessionId, row.proposalId, k, now);
  }

  /** What the state after an approval and some further run must still be like for the approved action to run. */
  ghost predicate StillApproved(s: State, u: State, job: Job, k: Id)
    requires job.DecideJob? && k in u.store.approvals
  {
    && RowsKept(s.store, u.store, job.sessionId, job.proposalId) && NoActionOf(u.store, job.proposalId)
    && !u.store.stop && u.clock < u.store.approvals[k].expiresAt
  }

  lemma ApprovalIsClaimable(rules: Rules, s: State, w: nat, k: Id, moves: seq<Move>)
    requires Inv(rules, s) && Enabled(rules, s, Decide(w, k)) && s.workers[w].job.decision == Approved
    requires Runs(rules, Step(rules, s, Decide(w, k)), moves)
    ensures var u := Exec(rules, Step(rules, s, Decide(w, k)), moves); var job := s.workers[w].job;
      && Inv(rules, u) && k in u.store.approvals
      && (StillApproved(s, u, job, k) ==> CanClaim(rules, u.store, job.sessionId, job.proposalId, k, u.clock))
  {
    var t := Step(rules, s, Decide(w, k));
    var u := Exec(rules, t, moves);
    DecideWritesRow(rules, s, w, k);
    StepKeepsInv(rules, s, Decide(w, k));
    RunKeepsInv(rules, t, moves);
    DecisionsAreFinal(rules, t, moves, k);
    if StillApproved(s, u, s.workers[w].job, k) {
      KeptApprovalIsClaimable(rules, s.store, u.store, k, s.clock, u.clock);
    }
  }

  lemma SpawnedRunIsReady(rules: Rules, s: State, sessionId: Id, proposalId: Id)
    ensures var t := Step(rules, s, Spawn(RunJob(sessionId, proposalId))); var w := |s.workers|;
      && Valid(t, w) && t.workers[w].pc.Begin? && t.workers[w].job == RunJob(sessionId, proposalId)
      && t == s.(workers := t.workers)
  {
  }

  /** What is approved can be run: after an approval and any further run, other requests, other actions and
      restarts included, if the rows of the proposal and its policy are as they were, it has no action yet, no
      stop is active and the approval has not expired, then a new run request is claimed, granted and
      dispatched under that approval. */
  lemma ApprovedActionCanRun(rules: Rules, s: State, w: nat, k: Id, moves: seq<Move>) returns (later: seq<Move>)
    requires Inv(rules, s) && Enabled(rules, s, Decide(w, k)) && s.workers[w].job.decision == Approved
    requires Runs(rules, Step(rules, s, Decide(w, k)), moves)
    requires var u := Exec(rules, Step(rules, s, Decide(w, k)), moves);
      && u.writeLock.None? && u.fenceLock.None? && !u.stopped
      && (k in u.store.approvals ==> StillApproved(s, u, s.workers[w].job, k))
    ensures var u := Exec(rules, Step(rules, s, Decide(w, k)), moves);
      && Runs(rules, u, later)
      && var v := Exec(rules, u, later);
      && |v.dispatches| == |u.dispatches| + 1
      && v.dispatches[|u.dispatches|].approvalId == k
      && v.dispatches[|u.dispatches|].proposalId == s.workers[w].job.proposalId
  {
    var job := s.workers[w].job;
    var u := Exec(rules, Step(rules, s, Decide(w, k)), moves);
    ApprovalIsClaimable(rules, s, w, k, moves);
    var spawn := Spawn(RunJob(job.sessionId, job.proposalId));
    var t := Step(rules, u, spawn);
    SpawnedRunIsReady(rules, u, job.sessionId, job.proposalId);
    var a := LongerThanAll(u.store.actions.Keys);
    var rest := ClaimableRunIsDispatched(rules, t, |u.workers|, k, a);
    RunCons(rules, u, spawn, rest);
    later := [spawn] + rest;
  }

  /** A restart forgets the flag and the locks: after it the approved action can run whoever held what before. */
  lemma ApprovedActionCanRunAfterRestart(rules: Rules, s: State, w: nat, k: Id, moves: seq<Move>)
      returns (later: seq<Move>)
    requires Inv(rules, s) && Enabled(rules, s, Decide(w, k)) && s.workers[w].job.decision == Approved
    requires Runs(rules, Step(rules, s, Decide(w, k)), moves)
    requires var u := Exec(rules, Step(rules, s, Decide(w, k)), moves);
      k in u.store.approvals ==> StillApproved(s, u, s.workers[w].job, k)
    ensures var u := Exec(rules, Step(rules, s, Decide(w, k)), moves);
      && Runs(rules, u, [Crash] + later)
      && var v := Exec(rules, u, [Crash] + later);
      && |v.dispatches| == |u.dispatches| + 1
      && v.dispatches[|u.dispatches|].approvalId == k
      && v.dispatches[|u.dispatches|].proposalId == s.workers[w].job.proposalId
  {
    var t := Step(rules, s, Decide(w, k));
    var u := Exec(rules, t, moves);
    RunOne(rules, u, Crash);
    RunAppend(rules, t, moves, [Crash]);
    later := ApprovedActionCanRun(rules, s, w, k, moves + [Crash]);
    RunCons(rules, u, Crash, later);
  }
}
