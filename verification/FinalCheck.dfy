/** The final check, read by read, against one declarative condition on the store. */
module FinalCheck {
  import opened Wrappers
  import opened ProtectedRecord
  import opened GuardedExecution
  import opened GuardedExecutionProgress

  /** What must hold of the rows for a claimed run to start, said all at once. */
  ghost predicate MayStart(rules: Rules, store: Store, now: Time, worker: Worker)
    requires worker.job.RunJob?
  {
    var sessionId := worker.job.sessionId;
    var proposalId := worker.job.proposalId;
    var context := DecisionContext(rules, store, sessionId, proposalId, now);
    && !store.stop
    && context.Some?
    && worker.actionId in store.actions
    && var action := store.actions[worker.actionId];
    && action.sessionId == sessionId && action.proposalId == proposalId && action.approvalId == worker.approvalId
    && action.status == Running
    && action.name == context.value.validated.actionName
    && action.arguments.Some? && Matches(action.arguments.value, context.value.validated.arguments)
    && worker.approvalId in store.approvals
    && var approval := store.approvals[worker.approvalId];
    && approval.sessionId == sessionId && approval.proposalId == proposalId
    && approval.targetId == context.value.target.id
    && approval.used
    && proposalId in store.policies && store.policies[proposalId]
    && Revalidates(rules, ScopeOf(rules, sessionId, proposalId, context.value.target, context.value.validated),
                   approval, false, store.stop, now)
  }

  datatype CheckResult = Allowed(grant: Grant) | NotAllowed | Raised(marks: bool)

  /** The whole check over a store that does not change meanwhile. */
  function CheckFrom(rules: Rules, store: Store, now: Time, worker: Worker, phase: Phase): CheckResult
    requires worker.job.RunJob?
    decreases PhaseRank(phase)
  {
    match ReadPhase(rules, store, now, worker, phase)
    case Stopped => NotAllowed
    case Raise => Raised(false)
    case RaiseAfterWrite(marks) => Raised(marks)
    case Continue(cache) =>
      if phase != Verdict then CheckFrom(rules, store, now, worker.(cache := cache), NextPhase(phase))
      else if CanGrant(rules, worker) then Allowed(MakeGrant(rules, worker, now))
      else Raised(false)
  }

  /** The store after a check: an overdue session is marked, unless the flag or a stop refused first. */
  function Checked(store: Store, stopped: bool, sessionId: Id, now: Time): Store {
    if stopped || store.stop then store else RefusalStore(store, sessionId, now)
  }

  /** What a claimed run leaves: its outcome if its action row has a registered name, and nothing if not. */
  function Left(store: Store, actionId: Id, status: ActionStatus): Store {
    if HasParser(store, actionId) then PersistStore(store, actionId, status) else store
  }

  /** The grant that authorized rows give. */
  function GrantOver(rules: Rules, store: Store, now: Time, worker: Worker): Grant
    requires worker.job.RunJob?
    requires DecisionContext(rules, store, worker.job.sessionId, worker.job.proposalId, now).Some?
    requires worker.actionId in store.actions && store.actions[worker.actionId].arguments.Some?
  {
    var context := DecisionContext(rules, store, worker.job.sessionId, worker.job.proposalId, now).value;
    Grant(worker.actionId, worker.approvalId, worker.job.sessionId, worker.job.proposalId, now,
          context.target.id, context.target.address, context.validated.actionName,
          store.actions[worker.actionId].arguments.value, context.validated.arguments)
  }

  /** The grant that the rows of `store` authorize, if they do. */
  ghost function Authorized(rules: Rules, store: Store, now: Time, worker: Worker): Option<Grant>
    requires worker.job.RunJob?
  {
    if MayStart(rules, store, now, worker) then Some(GrantOver(rules, store, now, worker)) else None
  }

  /** The stored rows that a worker's final check asks for. */
  function StoredRows(store: Store, worker: Worker): Cache
    requires worker.job.RunJob?
  {
    Cache(Some(store.stop), Lookup(store.sessions, worker.job.sessionId), Lookup(store.targets, worker.job.sessionId),
          Lookup(store.proposals, worker.job.proposalId), Lookup(store.actions, worker.actionId),
          Lookup(store.approvals, worker.approvalId), Lookup(store.policies, worker.job.proposalId))
  }

  /** The rows as the session gives them: its own where it has one, and else the stored one. */
  function SeenRows(store: Store, worker: Worker): Cache
    requires worker.job.RunJob?
  {
    var cache, rows := worker.cache, StoredRows(store, worker);
    Cache(Fresh(cache.stop, rows.stop), Fresh(cache.session, rows.session), Fresh(cache.target, rows.target),
          Fresh(cache.proposal, rows.proposal), Fresh(cache.action, rows.action),
          Fresh(cache.approval, rows.approval), Fresh(cache.policy, rows.policy))
  }

  /** The session holds every row read before `phase`. */
  predicate HeldBefore(cache: Cache, phase: Phase) {
    var done := 8 - PhaseRank(phase);
    && (done > 0 ==> cache.stop.Some?)
    && (done > 1 ==> cache.session.Some?)
    && (done > 2 ==> cache.target.Some?)
    && (done > 3 ==> cache.proposal.Some?)
    && (done > 4 ==> cache.action.Some?)
    && (done > 5 ==> cache.approval.Some?)
    && (done > 6 ==> cache.policy.Some?)
  }

  /** When the rows seen are authorized, no read stops the check, whatever has become of rows already held. */
  lemma AuthorizedPasses(rules: Rules, store: Store, other: Store, now: Time, worker: Worker, phase: Phase)
    requires worker.job.RunJob? && SeenRows(other, worker) == StoredRows(store, worker)
    requires HeldBefore(worker.cache, phase) && MayStart(rules, store, now, worker) && phase != Verdict
    ensures ReadPhase(rules, other, now, worker, phase).Continue?
    ensures var cache := ReadPhase(rules, other, now, worker, phase).cache;
      HeldBefore(cache, NextPhase(phase)) && SeenRows(other, worker.(cache := cache)) == StoredRows(store, worker)
  {
  }

  lemma AuthorizedIsGranted(rules: Rules, store: Store, other: Store, now: Time, worker: Worker)
    requires worker.job.RunJob? && SeenRows(other, worker) == StoredRows(store, worker)
    requires HeldBefore(worker.cache, Verdict) && MayStart(rules, store, now, worker)
    ensures ReadPhase(rules, other, now, worker, Verdict).Continue? && CanGrant(rules, worker)
    ensures MakeGrant(rules, worker, now) == GrantOver(rules, store, now, worker)
  {
  }

  /** Over rows that authorize it, the check gives the grant they give. */
  lemma StartableIsAllowed(rules: Rules, store: Store, now: Time, worker: Worker)
    requires worker.job.RunJob? && worker.cache == EMPTY_CACHE && MayStart(rules, store, now, worker)
    ensures CheckFrom(rules, store, now, worker, StopRead) == Allowed(GrantOver(rules, store, now, worker))
  {
  }

  lemma AllowedIsStartable(rules: Rules, store: Store, now: Time, worker: Worker)
    requires worker.job.RunJob? && worker.cache == EMPTY_CACHE
    requires CheckFrom(rules, store, now, worker, StopRead).Allowed?
    ensures MayStart(rules, store, now, worker)
  {
  }

  lemma OnlyStopIsNotAllowed(rules: Rules, store: Store, now: Time, worker: Worker)
    requires worker.job.RunJob? && worker.cache == EMPTY_CACHE
    ensures CheckFrom(rules, store, now, worker, StopRead).NotAllowed? <==> store.stop
  {
  }

  /** The check marks exactly a session that is still open and overdue, when no stop came first. */
  lemma OverdueIsMarked(rules: Rules, store: Store, now: Time, worker: Worker)
    requires worker.job.RunJob? && worker.cache == EMPTY_CACHE
    ensures CheckFrom(rules, store, now, worker, StopRead) == Raised(true) <==>
      !store.stop && RefusalStore(store, worker.job.sessionId, now) != store
  {
  }

  /** Nine separate reads from an emptied session accept exactly the rows that one declarative
      condition accepts. */
  lemma CheckAcceptsExactlyStartable(rules: Rules, store: Store, now: Time, worker: Worker)
    requires worker.job.RunJob? && worker.cache == EMPTY_CACHE
    ensures CheckFrom(rules, store, now, worker, StopRead).Allowed? <==> MayStart(rules, store, now, worker)
    ensures CheckFrom(rules, store, now, worker, StopRead).NotAllowed? <==> store.stop
    ensures MayStart(rules, store, now, worker) ==>
      CheckFrom(rules, store, now, worker, StopRead) == Allowed(GrantOver(rules, store, now, worker))
  {
    OnlyStopIsNotAllowed(rules, store, now, worker);
    if MayStart(rules, store, now, worker) {
      StartableIsAllowed(rules, store, now, worker);
    } else if CheckFrom(rules, store, now, worker, StopRead).Allowed? {
      AllowedIsStartable(rules, store, now, worker);
    }
  }

  // ---------------------------------------------------------------- an approved run does start

  /** Worker `w` is in the check before `phase`, over rows of `store` that authorize `grant`. */
  ghost predicate Passing(rules: Rules, store: Store, s: State, w: nat, phase: Phase, grant: Grant) {
    && Valid(s, w) && s.workers[w].pc == Checking(phase) && s.workers[w].job.RunJob?
    && HeldBefore(s.workers[w].cache, phase)
    && SeenRows(s.store, s.workers[w]) == StoredRows(store, s.workers[w])
    && Authorized(rules, store, s.clock, s.workers[w]) == Some(grant)
  }

  /** One step of worker `w`, which changes that worker alone, leads from `s` to `t`. */
  ghost predicate OneAdvance(rules: Rules, s: State, t: State, w: nat) {
    && Valid(s, w) && Valid(t, w) && t == Put(s, w, t.workers[w])
    && Enabled(rules, s, Advance(w)) && Step(rules, s, Advance(w)) == t
  }

  lemma CheckStepPasses(rules: Rules, store: Store, s: State, w: nat, phase: Phase, grant: Grant) returns (t: State)
    requires Passing(rules, store, s, w, phase, grant) && phase != Verdict
    ensures Passing(rules, store, t, w, NextPhase(phase), grant) && OneAdvance(rules, s, t, w)
  {
    AuthorizedPasses(rules, store, s.store, s.clock, s.workers[w], phase);
    var cache := ReadPhase(rules, s.store, s.clock, s.workers[w], phase).cache;
    t := Put(s, w, s.workers[w].(pc := Checking(NextPhase(phase)), cache := cache));
    assert Step(rules, s, Advance(w)) == t;
  }

  /** In `t` worker `w` has read on up to `phase`, and nothing else has changed since `s`. */
  ghost predicate ReadUpTo(rules: Rules, store: Store, s: State, t: State, w: nat, phase: Phase, grant: Grant) {
    && Passing(rules, store, t, w, phase, grant)
    && t.starts == s.starts && t.dispatches == s.dispatches && t.store == s.store && t.writeLock == s.writeLock
  }

  lemma AdvanceThenRead(rules: Rules, store: Store, s: State, t: State, w: nat, phase: Phase, rest: seq<Move>,
                        grant: Grant)
    requires OneAdvance(rules, s, t, w) && Runs(rules, t, rest)
    requires ReadUpTo(rules, store, t, Exec(rules, t, rest), w, phase, grant)
    ensures Runs(rules, s, [Advance(w)] + rest)
    ensures ReadUpTo(rules, store, s, Exec(rules, s, [Advance(w)] + rest), w, phase, grant)
  {
    RunCons(rules, s, Advance(w), rest);
  }

  lemma NextPhaseIsLower(phase: Phase, last: Phase)
    requires phase != last && PhaseRank(phase) >= PhaseRank(last)
    ensures phase != Verdict && PhaseRank(last) <= PhaseRank(NextPhase(phase)) < PhaseRank(phase)
  {
  }

  /** A check over authorized rows reads on to any later phase. */
  lemma {:induction false} ReadsOnTo(rules: Rules, store: Store, s: State, w: nat, phase: Phase, last: Phase,
                                     grant: Grant)
      returns (moves: seq<Move>)
    requires Passing(rules, store, s, w, phase, grant) && PhaseRank(phase) >= PhaseRank(last)
    ensures Runs(rules, s, moves) && ReadUpTo(rules, store, s, Exec(rules, s, moves), w, last, grant)
    decreases PhaseRank(phase)
  {
    if phase == last {
      moves := [];
    } else {
      NextPhaseIsLower(phase, last);
      var t := CheckStepPasses(rules, store, s, w, phase, grant);
      var rest := ReadsOnTo(rules, store, t, w, NextPhase(phase), last, grant);
      AdvanceThenRead(rules, store, s, t, w, last, rest, grant);
      moves := [Advance(w)] + rest;
    }
  }

  /** `t` is `s` with worker `w` granted. */
  ghost predicate GrantedAfter(s: State, t: State, w: nat, grant: Grant) {
    && t.starts == s.starts + [grant]
    && Valid(t, w) && t.workers[w].pc.Granted? && t.workers[w].grant == Some(grant)
    && t.dispatches == s.dispatches && t.store == s.store
  }

  lemma VerdictStepGrants(rules: Rules, store: Store, s: State, w: nat, grant: Grant)
    requires Passing(rules, store, s, w, Verdict, grant)
    ensures Runs(rules, s, [Advance(w)]) && GrantedAfter(s, Exec(rules, s, [Advance(w)]), w, grant)
  {
    AuthorizedIsGranted(rules, store, s.store, s.clock, s.workers[w]);
    assert Step(rules, s, Advance(w)) == GrantStep(rules, s, w);
    RunOne(rules, s, Advance(w));
  }

  /** A check over authorized rows, some of them held and perhaps changed since, runs to its grant. */
  lemma CheckRunsToGrant(rules: Rules, store: Store, s: State, w: nat, phase: Phase, grant: Grant)
      returns (moves: seq<Move>)
    requires Passing(rules, store, s, w, phase, grant)
    ensures Runs(rules, s, moves) && GrantedAfter(s, Exec(rules, s, moves), w, grant)
  {
    var reading := ReadsOnTo(rules, store, s, w, phase, Verdict, grant);
    VerdictStepGrants(rules, store, Exec(rules, s, reading), w, grant);
    RunAppend(rules, s, reading, [Advance(w)]);
    moves := reading + [Advance(w)];
  }

  /** What the claim wrote is what the check will look for. */
  lemma ClaimAuthorizes(rules: Rules, s: State, w: nat, k: Id, a: Id)
    requires Enabled(rules, s, Claim(w, k, a))
    ensures var t := ClaimStep(rules, s, w, k, a); MayStart(rules, t.store, t.clock, t.workers[w])
  {
  }

  /** A claimed worker goes on to the fence with its rows forgotten, and enters it. */
  lemma ClaimReachesFence(rules: Rules, s: State, w: nat)
    requires Valid(s, w) && s.workers[w].pc.Claimed? && s.workers[w].job.RunJob?
    requires s.fenceLock.None? && !s.stopped && MayStart(rules, s.store, s.clock, s.workers[w])
    ensures Runs(rules, s, [Advance(w), Advance(w)])
    ensures var t := Exec(rules, s, [Advance(w), Advance(w)]);
      && Valid(t, w) && t.workers[w].pc == Checking(StopRead) && t.workers[w].cache == EMPTY_CACHE
      && t.workers[w].job == s.workers[w].job
      && t.workers[w].actionId == s.workers[w].actionId && t.workers[w].approvalId == s.workers[w].approvalId
      && t.store == s.store && t.clock == s.clock && t.writeLock == s.writeLock
      && t.starts == s.starts && t.dispatches == s.dispatches
  {
    var t := Step(rules, s, Advance(w));
    assert t == ExpireStep(s, w);
    assert Step(rules, t, Advance(w)) == FenceStep(t, w);
    RunCons(rules, t, Advance(w), []);
    RunCons(rules, s, Advance(w), [Advance(w)]);
    assert [Advance(w)] + [] == [Advance(w)];
    assert [Advance(w)] + [Advance(w)] == [Advance(w), Advance(w)];
  }

  /** A run that may start, claimed and undisturbed, is granted and dispatched. */
  lemma ClaimedRunIsDispatched(rules: Rules, s: State, w: nat) returns (moves: seq<Move>)
    requires Valid(s, w) && s.workers[w].pc.Claimed? && s.workers[w].job.RunJob?
    requires s.fenceLock.None? && !s.stopped && MayStart(rules, s.store, s.clock, s.workers[w])
    ensures Runs(rules, s, moves)
    ensures var t := Exec(rules, s, moves); var g := GrantOver(rules, s.store, s.clock, s.workers[w]);
      t.starts == s.starts + [g] && t.dispatches == s.dispatches + [g]
  {
    ClaimReachesFence(rules, s, w);
    var first := [Advance(w), Advance(w)];
    var t := Exec(rules, s, first);
    var check := CheckRunsToGrant(rules, s.store, t, w, StopRead, GrantOver(rules, s.store, s.clock, s.workers[w]));
    var granted := Exec(rules, t, check);
    RunCons(rules, granted, Advance(w), []);
    RunAppend(rules, t, check, [Advance(w)] + []);
    RunAppend(rules, s, first, check + ([Advance(w)] + []));
    moves := first + (check + ([Advance(w)] + []));
  }

  /** The protocol is not safe by never starting: when the claim is possible, both locks are free and
      nothing interferes, the run is granted and dispatched. */
  lemma ClaimableRunIsDispatched(rules: Rules, s: State, w: nat, k: Id, a: Id) returns (moves: seq<Move>)
    requires Valid(s, w) && s.workers[w].pc.Begin? && s.workers[w].job.RunJob?
    requires s.writeLock.None? && s.fenceLock.None? && !s.stopped
    requires a !in s.store.actions
    requires CanClaim(rules, s.store, s.workers[w].job.sessionId, s.workers[w].job.proposalId, k, s.clock)
    ensures Runs(rules, s, moves)
    ensures var t := Exec(rules, s, moves);
      && |t.starts| == |s.starts| + 1 && |t.dispatches| == |s.dispatches| + 1
      && t.dispatches[|s.dispatches|] == t.starts[|s.starts|]
      && t.starts[|s.starts|].actionId == a && t.starts[|s.starts|].approvalId == k
      && t.starts[|s.starts|].proposalId == s.workers[w].job.proposalId
  {
    var s1 := Step(rules, s, Advance(w));
    assert s1 == BeginStep(s, w);
    var s2 := Step(rules, s1, Claim(w, k, a));
    ClaimAuthorizes(rules, s1, w, k, a);
    var rest := ClaimedRunIsDispatched(rules, s2, w);
    RunCons(rules, s1, Claim(w, k, a), rest);
    RunCons(rules, s, Advance(w), [Claim(w, k, a)] + rest);
    moves := [Advance(w)] + ([Claim(w, k, a)] + rest);
  }
}
