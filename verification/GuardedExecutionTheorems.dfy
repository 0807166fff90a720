/** What holds over whole runs of the guarded execution protocol: any number of workers, any
    interleaving, rows rewritten between steps, crashes and restarts. */
module GuardedExecutionTheorems {
  import opened ProtectedRecord
  import opened GuardedExecution
  import opened GuardedExecutionInvariants

  // ---------------------------------------------------------------- runs

  lemma InitialInv(rules: Rules, s: State)
    requires Initial(s)
    ensures Inv(rules, s)
  {
  }

  /** The invariant holds after every run. */
  lemma {:induction false} RunKeepsInv(rules: Rules, s: State, moves: seq<Move>)
    requires Inv(rules, s) && Runs(rules, s, moves)
    ensures Inv(rules, Exec(rules, s, moves))
    decreases |moves|
  {
    if moves == [] {
    } else {
      StepKeepsInv(rules, s, moves[0]);
      RunKeepsInv(rules, Step(rules, s, moves[0]), moves[1..]);
    }
  }

  // ---------------------------------------------------------------- which steps write what

  predicate WritesRecords(s: State, move: Move) {
    || move.Claim? || move.Decide? || move.Tamper?
    || (move.Advance? && Valid(s, move.worker) && s.workers[move.worker].pc.Persisting?)
  }

  lemma CheckWritesNothing(rules: Rules, s: State, w: nat)
    requires CanAdvance(s, w) && s.workers[w].pc.Checking?
    ensures CheckStep(rules, s, w).store == s.store && CheckStep(rules, s, w).decided == s.decided
  {
  }

  lemma CommitWrites(rules: Rules, s: State, w: nat)
    requires CanAdvance(s, w) && Commits(s.workers[w].pc) && !s.workers[w].pc.Persisting?
    ensures SameRecords(s, AdvanceStep(rules, s, w))
    ensures s.store.stop && !s.workers[w].pc.ClearWriting? ==> AdvanceStep(rules, s, w).store.stop
  {
  }

  lemma UnderwayWritesNothing(rules: Rules, s: State, w: nat)
    requires CanAdvance(s, w) && IsUnderway(s.workers[w].pc)
    ensures AdvanceStep(rules, s, w).store == s.store && AdvanceStep(rules, s, w).decided == s.decided
  {
  }

  lemma OthersWriteNothing(rules: Rules, s: State, w: nat)
    requires CanAdvance(s, w) && !Commits(s.workers[w].pc) && !IsUnderway(s.workers[w].pc) && !s.workers[w].pc.Checking?
    ensures AdvanceStep(rules, s, w).store == s.store && AdvanceStep(rules, s, w).decided == s.decided
  {
  }

  lemma MoveWrites(rules: Rules, s: State, move: Move)
    requires Enabled(rules, s, move) && !move.Advance?
    ensures !WritesRecords(s, move) ==> SameRecords(s, Step(rules, s, move))
    ensures Step(rules, s, move).store.stop == s.store.stop
  {
  }

  lemma StepWrites(rules: Rules, s: State, move: Move)
    requires Enabled(rules, s, move)
    ensures !WritesRecords(s, move) ==> SameRecords(s, Step(rules, s, move))
    ensures s.store.stop && !ClearsStop(s, move) ==> Step(rules, s, move).store.stop
  {
    if !move.Advance? {
      MoveWrites(rules, s, move);
    } else if s.workers[move.worker].pc.Checking? {
      CheckWritesNothing(rules, s, move.worker);
    } else if s.workers[move.worker].pc.Persisting? {
      assert Step(rules, s, move) == PersistStep(s, move.worker);
    } else if Commits(s.workers[move.worker].pc) {
      CommitWrites(rules, s, move.worker);
    } else if IsUnderway(s.workers[move.worker].pc) {
      UnderwayWritesNothing(rules, s, move.worker);
    } else {
      OthersWriteNothing(rules, s, move.worker);
    }
  }

  // ---------------------------------------------------------------- at most one start

  /** The step in which `try_start` answers yes. */
  ghost predicate Grants(rules: Rules, s: State, move: Move) {
    && move.Advance? && CanAdvance(s, move.worker) && s.workers[move.worker].pc.Checking?
    && AdvanceStep(rules, s, move.worker).workers[move.worker].pc.Granted?
  }

  lemma UnderwayStartsNothing(rules: Rules, s: State, w: nat)
    requires CanAdvance(s, w) && IsUnderway(s.workers[w].pc)
    ensures AdvanceStep(rules, s, w).starts == s.starts
  {
  }

  lemma CommitStartsNothing(rules: Rules, s: State, w: nat)
    requires CanAdvance(s, w) && Commits(s.workers[w].pc)
    ensures AdvanceStep(rules, s, w).starts == s.starts
  {
  }

  lemma OthersStartNothing(rules: Rules, s: State, w: nat)
    requires CanAdvance(s, w) && !IsUnderway(s.workers[w].pc) && !Commits(s.workers[w].pc)
    requires !s.workers[w].pc.Checking?
    ensures AdvanceStep(rules, s, w).starts == s.starts
  {
  }

  lemma AdvanceStartsOnlyInCheck(rules: Rules, s: State, w: nat)
    requires CanAdvance(s, w) && !s.workers[w].pc.Checking?
    ensures AdvanceStep(rules, s, w).starts == s.starts
  {
    if IsUnderway(s.workers[w].pc) {
      UnderwayStartsNothing(rules, s, w);
    } else if Commits(s.workers[w].pc) {
      CommitStartsNothing(rules, s, w);
    } else {
      OthersStartNothing(rules, s, w);
    }
  }

  lemma MoveStartsNothing(rules: Rules, s: State, move: Move)
    requires Enabled(rules, s, move) && !move.Advance?
    ensures Step(rules, s, move).starts == s.starts
  {
  }

  lemma StartsOnlyInCheck(rules: Rules, s: State, move: Move)
    requires Enabled(rules, s, move)
    requires move.Advance? ==> !s.workers[move.worker].pc.Checking?
    ensures Step(rules, s, move).starts == s.starts
  {
    if move.Advance? {
      AdvanceStartsOnlyInCheck(rules, s, move.worker);
    } else {
      MoveStartsNothing(rules, s, move);
    }
  }

  /** `t` has one start more than `s` if worker `w` is granted there, and none more if not. */
  ghost predicate RecordsGrant(s: State, t: State, w: nat) {
    && Valid(t, w) && s.starts <= t.starts
    && |t.starts| == |s.starts| + if t.workers[w].pc.Granted? then 1 else 0
  }

  lemma CheckRecordsGrant(rules: Rules, s: State, w: nat)
    requires CanAdvance(s, w) && s.workers[w].pc.Checking?
    ensures RecordsGrant(s, CheckStep(rules, s, w), w)
  {
    CheckStepShape(rules, s, w);
    if LeavesCheck(s, CheckStep(rules, s, w), w) {
      LeavingStartsNothing(s, CheckStep(rules, s, w), w);
    }
  }

  /** A start is recorded exactly when a check is granted. */
  lemma StartsRecordGrants(rules: Rules, s: State, move: Move)
    requires Inv(rules, s) && Enabled(rules, s, move)
    ensures s.starts <= Step(rules, s, move).starts
    ensures |Step(rules, s, move).starts| == |s.starts| + if Grants(rules, s, move) then 1 else 0
  {
    if move.Advance? && s.workers[move.worker].pc.Checking? {
      CheckRecordsGrant(rules, s, move.worker);
    } else {
      StartsOnlyInCheck(rules, s, move);
    }
  }

  ghost function CountGrants(rules: Rules, s: State, moves: seq<Move>): nat
    requires Runs(rules, s, moves)
    decreases |moves|
  {
    if moves == [] then 0
    else (if Grants(rules, s, moves[0]) then 1 else 0) + CountGrants(rules, Step(rules, s, moves[0]), moves[1..])
  }

  lemma {:induction false} StartsCountGrants(rules: Rules, s: State, moves: seq<Move>)
    requires Inv(rules, s) && Runs(rules, s, moves)
    ensures s.starts <= Exec(rules, s, moves).starts
    ensures |Exec(rules, s, moves).starts| == |s.starts| + CountGrants(rules, s, moves)
    decreases |moves|
  {
    if moves == [] {
    } else {
      StartsRecordGrants(rules, s, moves[0]);
      StepKeepsInv(rules, s, moves[0]);
      StartsCountGrants(rules, Step(rules, s, moves[0]), moves[1..]);
    }
  }

  ghost predicate AllDistinct(grants: seq<Grant>) {
    forall i, j | 0 <= i < j < |grants| ::
      && grants[i].actionId != grants[j].actionId
      && grants[i].approvalId != grants[j].approvalId
      && grants[i].proposalId != grants[j].proposalId
  }

  lemma StartsDistinct(rules: Rules, s: State)
    requires Inv(rules, s)
    ensures AllDistinct(s.starts)
  {
  }

  /** A sublist without repeated actions of a list without repeats has no repeats either. */
  lemma DispatchesDistinct(rules: Rules, s: State)
    requires Inv(rules, s)
    ensures AllDistinct(s.dispatches)
  {
  }

  /** Over every run from an empty store, each proposal and each approval is started at most once
      and dispatched at most once, and only what was started is dispatched. */
  lemma AtMostOneStart(rules: Rules, s: State, moves: seq<Move>)
    requires Initial(s) && Runs(rules, s, moves)
    ensures var t := Exec(rules, s, moves);
      && |t.starts| == CountGrants(rules, s, moves)
      && AllDistinct(t.starts)
      && AllDistinct(t.dispatches)
      && (forall d <- t.dispatches :: d in t.starts)
  {
    var t := Exec(rules, s, moves);
    InitialInv(rules, s);
    RunKeepsInv(rules, s, moves);
    StartsCountGrants(rules, s, moves);
    StartsDistinct(rules, t);
    DispatchesDistinct(rules, t);
    forall d <- t.dispatches ensures d in t.starts {
      var i :| 0 <= i < |t.dispatches| && t.dispatches[i] == d;
    }
  }

  // ---------------------------------------------------------------- the fence and the stop

  /** The only steps that lower the fence flag: the end of a clear, and a crash. */
  predicate LowersFlag(s: State, move: Move) {
    move.Crash? || (move.Advance? && Valid(s, move.worker) && s.workers[move.worker].pc.ClearCommitted?)
  }

  /** The only step that clears the durable stop. */
  predicate ClearsStop(s: State, move: Move) {
    move.Advance? && Valid(s, move.worker) && s.workers[move.worker].pc.ClearWriting?
  }

  ghost predicate NoStep(rules: Rules, s: State, moves: seq<Move>, bad: (State, Move) -> bool)
    requires Runs(rules, s, moves)
    decreases |moves|
  {
    moves == [] || (!bad(s, moves[0]) && NoStep(rules, Step(rules, s, moves[0]), moves[1..], bad))
  }

  lemma FlagOnlyLowered(rules: Rules, s: State, move: Move)
    requires Enabled(rules, s, move) && s.stopped && !LowersFlag(s, move)
    ensures Step(rules, s, move).stopped
  {
  }

  lemma FlagStays(rules: Rules, s: State, move: Move)
    requires Inv(rules, s) && Enabled(rules, s, move) && s.stopped && !LowersFlag(s, move)
    ensures Step(rules, s, move).stopped && Step(rules, s, move).starts == s.starts
  {
    FlagOnlyLowered(rules, s, move);
    if move.Advance? && s.workers[move.worker].pc.Checking? {
      assert false;
    } else {
      StartsOnlyInCheck(rules, s, move);
    }
  }

  /** From the moment a stop raises the flag until a later clear has committed and returned, or the
      process crashes, nothing starts: also when the stop's own commit failed. */
  lemma {:induction false} NoStartUnderFlag(rules: Rules, s: State, moves: seq<Move>)
    requires Inv(rules, s) && s.stopped && Runs(rules, s, moves) && NoStep(rules, s, moves, LowersFlag)
    ensures Exec(rules, s, moves).stopped && Exec(rules, s, moves).starts == s.starts
    decreases |moves|
  {
    if moves == [] {
    } else {
      FlagStays(rules, s, moves[0]);
      StepKeepsInv(rules, s, moves[0]);
      NoStartUnderFlag(rules, Step(rules, s, moves[0]), moves[1..]);
    }
  }

  lemma StopRowStays(rules: Rules, s: State, move: Move)
    requires Inv(rules, s) && Enabled(rules, s, move) && s.store.stop && !ClearsStop(s, move)
    ensures Step(rules, s, move).store.stop && Step(rules, s, move).starts == s.starts
  {
    StepWrites(rules, s, move);
    if move.Advance? && s.workers[move.worker].pc.Checking? {
      if CheckStep(rules, s, move.worker).starts != s.starts {
        VerdictIsSound(rules, s, move.worker);
      }
    } else {
      StartsOnlyInCheck(rules, s, move);
    }
  }

  /** While the committed stop row is active nothing starts, through any number of crashes and
      restarts, each of which forgets the flag. */
  lemma {:induction false} NoStartUnderStopRow(rules: Rules, s: State, moves: seq<Move>)
    requires Inv(rules, s) && s.store.stop && Runs(rules, s, moves) && NoStep(rules, s, moves, ClearsStop)
    ensures Exec(rules, s, moves).store.stop && Exec(rules, s, moves).starts == s.starts
    decreases |moves|
  {
    if moves == [] {
    } else {
      StopRowStays(rules, s, moves[0]);
      StepKeepsInv(rules, s, moves[0]);
      NoStartUnderStopRow(rules, Step(rules, s, moves[0]), moves[1..]);
    }
  }

  lemma StopRaisesFlag(rules: Rules, s: State, w: nat)
    requires CanAdvance(s, w) && s.workers[w].pc.Begin? && s.workers[w].job.StopJob?
    ensures AdvanceStep(rules, s, w).stopped && AdvanceStep(rules, s, w).starts == s.starts
  {
  }

  /** A stop that enters the fence ends all starts, whatever then becomes of it: its own failure, other
      requests, rewritten rows and time included, until a clear is through or the process crashes. */
  lemma StopEndsStarts(rules: Rules, s: State, w: nat, moves: seq<Move>)
    requires Inv(rules, s) && CanAdvance(s, w) && s.workers[w].pc.Begin? && s.workers[w].job.StopJob?
    requires var t := Step(rules, s, Advance(w)); Runs(rules, t, moves) && NoStep(rules, t, moves, LowersFlag)
    ensures var u := Exec(rules, Step(rules, s, Advance(w)), moves); u.stopped && u.starts == s.starts
  {
    StopRaisesFlag(rules, s, w);
    StepKeepsInv(rules, s, Advance(w));
    NoStartUnderFlag(rules, Step(rules, s, Advance(w)), moves);
  }

  // ---------------------------------------------------------------- what was approved is what runs

  /** Whatever rows are rewritten between steps, the session, target, canonical address, proposal,
      action name and arguments handed to the dispatcher are the ones hashed into the approval. */
  lemma DispatchIsWhatWasApproved(rules: Rules, s: State, moves: seq<Move>)
    requires CollisionFree(rules.hash) && Initial(s) && Runs(rules, s, moves)
    ensures var t := Exec(rules, s, moves);
      forall d <- t.dispatches ::
        && d.approvalId in t.store.approvals && d.approvalId in t.decided
        && GrantScope(rules, d) == t.decided[d.approvalId].scope
        && Matches(d.arguments, t.decided[d.approvalId].scope.arguments)
        && t.store.approvals[d.approvalId].sessionId == d.sessionId
        && t.store.approvals[d.approvalId].proposalId == d.proposalId
        && t.store.approvals[d.approvalId].targetId == d.targetId
  {
    var t := Exec(rules, s, moves);
    InitialInv(rules, s);
    RunKeepsInv(rules, s, moves);
    forall d <- t.dispatches
      ensures d.approvalId in t.store.approvals && d.approvalId in t.decided
        && GrantScope(rules, d) == t.decided[d.approvalId].scope
        && Matches(d.arguments, t.decided[d.approvalId].scope.arguments)
        && t.store.approvals[d.approvalId].sessionId == d.sessionId
        && t.store.approvals[d.approvalId].proposalId == d.proposalId
        && t.store.approvals[d.approvalId].targetId == d.targetId
    {
      var i :| 0 <= i < |t.dispatches| && t.dispatches[i] == d;
      assert d in t.starts;
      var j :| 0 <= j < |t.starts| && t.starts[j] == d;
      assert StartOk(rules, t.store, t.starts[j]);
      assert DecisionOk(rules, t.store.approvals[d.approvalId], t.decided[d.approvalId], t.clock);
    }
  }

  // ---------------------------------------------------------------- decisions

  predicate KeepsDecision(s: State, t: State, k: Id) {
    k in s.store.approvals && k in s.decided ==>
      && k in t.store.approvals && k in t.decided && t.decided[k] == s.decided[k]
      && t.store.approvals[k].(used := s.store.approvals[k].used) == s.store.approvals[k]
      && (s.store.approvals[k].used ==> t.store.approvals[k].used)
  }

  lemma DecisionStays(rules: Rules, s: State, move: Move, k: Id)
    requires Enabled(rules, s, move)
    ensures KeepsDecision(s, Step(rules, s, move), k)
  {
    StepWrites(rules, s, move);
  }

  /** A recorded decision is final: nothing but its use mark ever changes. */
  lemma {:induction false} DecisionsAreFinal(rules: Rules, s: State, moves: seq<Move>, k: Id)
    requires Inv(rules, s) && Runs(rules, s, moves) && k in s.store.approvals
    ensures var t := Exec(rules, s, moves);
      && k in t.store.approvals && k in t.decided && k in s.decided && t.decided[k] == s.decided[k]
      && t.store.approvals[k].(used := s.store.approvals[k].used) == s.store.approvals[k]
      && (s.store.approvals[k].used ==> t.store.approvals[k].used)
    decreases |moves|
  {
    if moves == [] {
    } else {
      DecisionStays(rules, s, moves[0], k);
      StepKeepsInv(rules, s, moves[0]);
      DecisionsAreFinal(rules, Step(rules, s, moves[0]), moves[1..], k);
    }
  }

  /** One decision per proposal, an expiry no later than the session's, the target's and fifteen
      minutes, and every start under a live approval. */
  lemma DecisionsAreUniqueAndBounded(rules: Rules, s: State, moves: seq<Move>)
    requires Initial(s) && Runs(rules, s, moves)
    ensures var t := Exec(rules, s, moves);
      && (forall k, l | k in t.store.approvals && l in t.store.approvals
            && t.store.approvals[k].proposalId == t.store.approvals[l].proposalId :: k == l)
      && (forall k <- t.store.approvals ::
            && k in t.decided
            && t.store.approvals[k].expiresAt <= t.decided[k].sessionExpiry
            && t.store.approvals[k].expiresAt <= t.decided[k].targetExpiry
            && t.store.approvals[k].expiresAt <= t.decided[k].at + APPROVAL_TTL)
      && (forall g <- t.starts ::
            && g.approvalId in t.store.approvals
            && t.store.approvals[g.approvalId].decision == Approved
            && g.checkedAt < t.store.approvals[g.approvalId].expiresAt)
  {
    InitialInv(rules, s);
    RunKeepsInv(rules, s, moves);
    var t := Exec(rules, s, moves);
    forall k <- t.store.approvals
      ensures k in t.decided && DecisionOk(rules, t.store.approvals[k], t.decided[k], t.clock)
    {
    }
    forall g <- t.starts ensures StartOk(rules, t.store, g) {
      var i :| 0 <= i < |t.starts| && t.starts[i] == g;
    }
  }

  // ---------------------------------------------------------------- lifecycle

  /** The number of results stored for one action. */
  function ResultCount(store: Store, a: Id): nat {
    store.results[ResultRow(a, Running)] + store.results[ResultRow(a, Completed)] + store.results[ResultRow(a, Failed)]
    + store.results[ResultRow(a, TimedOut)] + store.results[ResultRow(a, Cancelled)]
  }

  function FinishCount(store: Store, a: Id): nat {
    store.audit[ActionFinished(a, Running)] + store.audit[ActionFinished(a, Completed)]
    + store.audit[ActionFinished(a, Failed)] + store.audit[ActionFinished(a, TimedOut)]
    + store.audit[ActionFinished(a, Cancelled)]
  }

  /** In every reachable state: an approval is used exactly when one action exists for it; an action
      has left `running` exactly when it has exactly one result, which has its status; it has one
      start event, and one finish event exactly when it has a result. */
  lemma LifecycleIsConserved(rules: Rules, s: State, moves: seq<Move>)
    requires Initial(s) && Runs(rules, s, moves)
    ensures var t := Exec(rules, s, moves).store;
      && (forall k <- t.approvals :: t.approvals[k].used <==> HasAction(t, k))
      && (forall a, b | a in t.actions && b in t.actions
            && t.actions[a].approvalId == t.actions[b].approvalId :: a == b)
      && (forall a <- t.actions ::
            && t.audit[ActionStarted(a)] == 1
            && ResultCount(t, a) == FinishCount(t, a) == (if t.actions[a].status == Running then 0 else 1)
            && (t.actions[a].status != Running ==>
                  t.results[ResultRow(a, t.actions[a].status)] == 1 == t.audit[ActionFinished(a, t.actions[a].status)]))
  {
    InitialInv(rules, s);
    RunKeepsInv(rules, s, moves);
    var t := Exec(rules, s, moves).store;
    forall k <- t.approvals ensures t.approvals[k].used <==> HasAction(t, k) {
      if HasAction(t, k) {
        var a :| a in t.actions && t.actions[a].approvalId == k;
        assert ClaimOk(t, t.actions[a]);
      }
    }
    forall a <- t.actions
      ensures ResultCount(t, a) == FinishCount(t, a) == (if t.actions[a].status == Running then 0 else 1)
    {
      CountsFollowStatus(t, a);
    }
  }

  lemma CountsFollowStatus(store: Store, a: Id)
    requires Lifecycle(store) && a in store.actions
    ensures ResultCount(store, a) == FinishCount(store, a) == (if store.actions[a].status == Running then 0 else 1)
  {
  }

  predicate KeepsStatus(s: State, t: State, a: Id) {
    a in s.store.actions ==> a in t.store.actions && t.store.actions[a].status == s.store.actions[a].status
  }

  lemma PersistKeepsTerminal(s: State, w: nat, a: Id)
    requires Valid(s, w) && s.workers[w].pc.Persisting? && OwnerOk(s.store, s.workers[w])
    requires a in s.store.actions && s.store.actions[a].status != Running
    ensures KeepsStatus(s, PersistStep(s, w), a)
  {
  }

  lemma WritersKeepStatus(rules: Rules, s: State, move: Move, a: Id)
    requires Enabled(rules, s, move) && (move.Claim? || move.Decide? || move.Tamper?)
    ensures KeepsStatus(s, Step(rules, s, move), a)
  {
  }

  lemma OthersKeepStatus(rules: Rules, s: State, move: Move, a: Id)
    requires Enabled(rules, s, move) && !WritesRecords(s, move)
    ensures KeepsStatus(s, Step(rules, s, move), a)
  {
    StepWrites(rules, s, move);
  }

  lemma TerminalStaysOneStep(rules: Rules, s: State, move: Move, a: Id)
    requires Owners(s) && Enabled(rules, s, move)
    requires a in s.store.actions && s.store.actions[a].status != Running
    ensures KeepsStatus(s, Step(rules, s, move), a)
  {
    if move.Claim? || move.Decide? || move.Tamper? {
      WritersKeepStatus(rules, s, move, a);
    } else if WritesRecords(s, move) {
      assert OwnerOk(s.store, s.workers[move.worker]);
      PersistKeepsTerminal(s, move.worker, a);
      assert Step(rules, s, move) == PersistStep(s, move.worker);
    } else {
      OthersKeepStatus(rules, s, move, a);
    }
  }

  /** A terminal status never changes again. */
  lemma {:induction false} TerminalStatusIsFinal(rules: Rules, s: State, moves: seq<Move>, a: Id)
    requires Inv(rules, s) && Runs(rules, s, moves)
    requires a in s.store.actions && s.store.actions[a].status != Running
    ensures a in Exec(rules, s, moves).store.actions
    ensures Exec(rules, s, moves).store.actions[a].status == s.store.actions[a].status
    decreases |moves|
  {
    if moves == [] {
    } else {
      TerminalStaysOneStep(rules, s, moves[0], a);
      StepKeepsInv(rules, s, moves[0]);
      TerminalStatusIsFinal(rules, Step(rules, s, moves[0]), moves[1..], a);
    }
  }

  // ---------------------------------------------------------------- runs that recorded nothing

  /** A running action that no worker has any more. */
  ghost predicate Abandoned(s: State, a: Id) {
    && a in s.store.actions && s.store.actions[a].status == Running
    && forall w: nat | w < |s.workers| && OwnsAction(s.workers[w].pc) :: s.workers[w].actionId != a
  }

  lemma AbandonedFromContinues(s: State, t: State, w: nat, a: Id)
    requires Abandoned(s, a) && Continues(s, t, w)
    requires a in t.store.actions && t.store.actions[a].status == Running
    ensures Abandoned(t, a)
  {
  }

  lemma PersistKeepsOthers(s: State, w: nat, a: Id)
    requires Valid(s, w) && s.workers[w].pc.Persisting? && s.workers[w].actionId in s.store.actions
    requires s.workers[w].actionId != a && a in s.store.actions
    ensures KeepsStatus(s, PersistStep(s, w), a)
  {
  }

  lemma AdvanceKeepsAbandoned(rules: Rules, s: State, w: nat, a: Id)
    requires CanAdvance(s, w) && Abandoned(s, a)
    ensures Abandoned(AdvanceStep(rules, s, w), a)
  {
    AdvanceContinues(rules, s, w);
    if s.workers[w].pc.Persisting? {
      PersistKeepsOthers(s, w, a);
      assert AdvanceStep(rules, s, w) == PersistStep(s, w);
    } else {
      OthersKeepStatus(rules, s, Advance(w), a);
    }
    AbandonedFromContinues(s, AdvanceStep(rules, s, w), w, a);
  }

  lemma ClaimKeepsAbandoned(rules: Rules, s: State, w: nat, k: Id, b: Id, a: Id)
    requires Enabled(rules, s, Claim(w, k, b)) && Abandoned(s, a)
    ensures Abandoned(ClaimStep(rules, s, w, k, b), a)
  {
  }

  lemma MoveContinues(rules: Rules, s: State, move: Move)
    requires Enabled(rules, s, move) && IsWorkerMove(move) && !move.Advance? && !move.Claim?
    ensures Continues(s, Step(rules, s, move), move.worker)
    ensures Step(rules, s, move).store.actions == s.store.actions
  {
  }

  lemma EnvironmentKeepsAbandoned(rules: Rules, s: State, move: Move, a: Id)
    requires Enabled(rules, s, move) && !IsWorkerMove(move) && Abandoned(s, a)
    ensures Abandoned(Step(rules, s, move), a)
  {
  }

  lemma StepKeepsAbandoned(rules: Rules, s: State, move: Move, a: Id)
    requires Enabled(rules, s, move) && Abandoned(s, a)
    ensures Abandoned(Step(rules, s, move), a)
  {
    if !IsWorkerMove(move) {
      EnvironmentKeepsAbandoned(rules, s, move, a);
    } else if move.Advance? {
      AdvanceKeepsAbandoned(rules, s, move.worker, a);
    } else if move.Claim? {
      ClaimKeepsAbandoned(rules, s, move.worker, move.approvalId, move.actionId, a);
    } else {
      MoveContinues(rules, s, move);
      AbandonedFromContinues(s, Step(rules, s, move), move.worker, a);
    }
  }

  /** An action whose run ended without a record stays running for ever: no later step of any worker,
      and no restart, gives it a result. */
  lemma {:induction false} AbandonedStaysRunning(rules: Rules, s: State, moves: seq<Move>, a: Id)
    requires Inv(rules, s) && Runs(rules, s, moves) && Abandoned(s, a)
    ensures var t := Exec(rules, s, moves);
      Abandoned(t, a) && ResultCount(t.store, a) == 0 == FinishCount(t.store, a)
    decreases |moves|
  {
    if moves == [] {
      CountsFollowStatus(s.store, a);
    } else {
      StepKeepsInv(rules, s, moves[0]);
      StepKeepsAbandoned(rules, s, moves[0], a);
      AbandonedStaysRunning(rules, Step(rules, s, moves[0]), moves[1..], a);
    }
  }
}
