/** What emptying the database session before the final check buys: a session gives a row it holds
    without asking the store, so rows read by the claim would be believed again. */
module SessionCache {
  import opened Wrappers
  import opened GuardedExecution
  import opened GuardedExecutionInvariants
  import opened GuardedExecutionTheorems
  import opened GuardedExecutionProgress
  import opened FinalCheck
  import opened RowByRow

  // ---------------------------------------------------------------- runs with all their states

  /** The states of a run, one more than its moves. */
  ghost predicate Trace(rules: Rules, states: seq<State>, moves: seq<Move>) {
    && |states| == |moves| + 1
    && forall k | 0 <= k < |moves| ::
         Enabled(rules, states[k], moves[k]) && states[k + 1] == Step(rules, states[k], moves[k])
  }

  /** Every run has its states. */
  lemma {:induction false} RunHasTrace(rules: Rules, s: State, moves: seq<Move>) returns (states: seq<State>)
    requires Runs(rules, s, moves)
    ensures Trace(rules, states, moves) && states[0] == s && states[|moves|] == Exec(rules, s, moves)
    decreases |moves|
  {
    if moves == [] {
      states := [s];
    } else {
      var rest := RunHasTrace(rules, Step(rules, s, moves[0]), moves[1..]);
      states := [s] + rest;
      forall k | 0 <= k < |moves|
        ensures Enabled(rules, states[k], moves[k]) && states[k + 1] == Step(rules, states[k], moves[k])
      {
        assert k > 0 ==> moves[k] == moves[1..][k - 1];
      }
    }
  }

  lemma {:induction false} TraceKeepsInv(rules: Rules, states: seq<State>, moves: seq<Move>, k: nat)
    requires Trace(rules, states, moves) && Inv(rules, states[0]) && k < |states|
    ensures Inv(rules, states[k])
  {
    if k == 0 {
    } else {
      TraceKeepsInv(rules, states, moves, k - 1);
      StepKeepsInv(rules, states[k - 1], moves[k - 1]);
    }
  }

  // ---------------------------------------------------------------- rows under one hold of the fence

  /** Every row the session holds was stored in some state from index `i` on. */
  ghost predicate RowsSince(states: seq<State>, i: nat, worker: Worker) {
    && worker.job.RunJob?
    && (worker.cache.stop.Some? ==>
          exists k :: i <= k < |states| && StoredRows(states[k].store, worker).stop == worker.cache.stop)
    && (worker.cache.session.Some? ==>
          exists k :: i <= k < |states| && StoredRows(states[k].store, worker).session == worker.cache.session)
    && (worker.cache.target.Some? ==>
          exists k :: i <= k < |states| && StoredRows(states[k].store, worker).target == worker.cache.target)
    && (worker.cache.proposal.Some? ==>
          exists k :: i <= k < |states| && StoredRows(states[k].store, worker).proposal == worker.cache.proposal)
    && (worker.cache.action.Some? ==>
          exists k :: i <= k < |states| && StoredRows(states[k].store, worker).action == worker.cache.action)
    && (worker.cache.approval.Some? ==>
          exists k :: i <= k < |states| && StoredRows(states[k].store, worker).approval == worker.cache.approval)
    && (worker.cache.policy.Some? ==>
          exists k :: i <= k < |states| && StoredRows(states[k].store, worker).policy == worker.cache.policy)
  }

  /** Each row is as it was, or is the one stored. */
  predicate OldOrStored(before: Cache, now: Cache, rows: Cache) {
    && (now.stop == before.stop || now.stop == rows.stop)
    && (now.session == before.session || now.session == rows.session)
    && (now.target == before.target || now.target == rows.target)
    && (now.proposal == before.proposal || now.proposal == rows.proposal)
    && (now.action == before.action || now.action == rows.action)
    && (now.approval == before.approval || now.approval == rows.approval)
    && (now.policy == before.policy || now.policy == rows.policy)
  }

  lemma ReadsStoredRows(rules: Rules, store: Store, now: Time, worker: Worker, phase: Phase)
    requires worker.job.RunJob? && ReadPhase(rules, store, now, worker, phase).Continue?
    ensures OldOrStored(worker.cache, ReadPhase(rules, store, now, worker, phase).cache, StoredRows(store, worker))
  {
  }

  /** Worker `w` took the fence in the step to state `i`, with an empty session, and has been in its
      final check under that one hold of the fence ever since. */
  ghost predicate UnderFence(states: seq<State>, moves: seq<Move>, w: nat, i: nat) {
    && 0 < i < |states| == |moves| + 1
    && moves[i - 1] == Advance(w)
    && Valid(states[i - 1], w) && states[i - 1].workers[w].pc.AwaitFence?
    && Valid(states[i], w) && states[i].workers[w].cache == EMPTY_CACHE
    && forall k | i <= k < |states| ::
         Valid(states[k], w) && states[k].workers[w].pc.Checking? && states[k].fenceLock == Some(w)
  }

  predicate SessionHeld(worker: Worker) {
    worker.pc.Checking? && worker.pc.phase != StopRead && worker.pc.phase != SessionRead ==> worker.cache.session.Some?
  }

  /** Worker `w` is in a check that began at index `i` and holds only rows stored since. */
  ghost predicate Recent(states: seq<State>, moves: seq<Move>, w: nat, i: nat) {
    && UnderFence(states, moves, w, i)
    && RowsSince(states, i, states[|states| - 1].workers[w]) && SessionHeld(states[|states| - 1].workers[w])
  }

  /** `next` is `worker` after reading at most one more row of `store`. */
  predicate Follows(store: Store, worker: Worker, next: Worker) {
    && worker.job.RunJob? && next.job == worker.job
    && next.actionId == worker.actionId && next.approvalId == worker.approvalId
    && OldOrStored(worker.cache, next.cache, StoredRows(store, worker))
    && (SessionHeld(worker) ==> SessionHeld(next))
  }

  lemma RowsSinceExtends(states: seq<State>, i: nat, worker: Worker, next: Worker, t: State)
    requires RowsSince(states, i, worker) && i < |states|
    requires Follows(states[|states| - 1].store, worker, next)
    ensures RowsSince(states + [t], i, next)
  {
    var after := states + [t];
    forall k | 0 <= k < |states|
      ensures after[k] == states[k] && StoredRows(after[k].store, next) == StoredRows(states[k].store, worker)
    {
    }
  }

  lemma RecentExtends(states: seq<State>, moves: seq<Move>, w: nat, i: nat, move: Move, t: State)
    requires Recent(states, moves, w, i)
    requires Valid(t, w) && t.workers[w].pc.Checking? && t.fenceLock == Some(w)
    requires var s := states[|states| - 1]; Follows(s.store, s.workers[w], t.workers[w])
    ensures Recent(states + [t], moves + [move], w, i)
  {
    RowsSinceExtends(states, i, states[|states| - 1].workers[w], t.workers[w], t);
    var after := states + [t];
    forall k | i <= k < |after|
      ensures Valid(after[k], w) && after[k].workers[w].pc.Checking? && after[k].fenceLock == Some(w)
    {
    }
  }

  lemma OthersKeepWorker(rules: Rules, s: State, move: Move, w: nat)
    requires Enabled(rules, s, move) && Valid(s, w) && !move.Crash? && !(IsWorkerMove(move) && move.worker == w)
    ensures Valid(Step(rules, s, move), w) && Step(rules, s, move).workers[w] == s.workers[w]
  {
    if IsWorkerMove(move) {
      StepUsesWork(rules, s, move);
    }
  }

  /** A step after which `w` is in its check is its entry, one more read, or somebody else's. */
  lemma CheckStepKinds(rules: Rules, s: State, move: Move, w: nat)
    requires Inv(rules, s) && Enabled(rules, s, move)
    requires var t := Step(rules, s, move); Valid(t, w) && t.workers[w].pc.Checking?
    ensures Valid(s, w)
    ensures s.workers[w].pc.Checking? ==>
      (move == Advance(w)) || (!move.Crash? && !(IsWorkerMove(move) && move.worker == w))
    ensures !s.workers[w].pc.Checking? ==>
      && move == Advance(w) && s.workers[w].pc.AwaitFence?
      && Step(rules, s, move).workers[w].cache == EMPTY_CACHE
      && Step(rules, s, move).workers[w].pc == Checking(StopRead)
  {
    var t := Step(rules, s, move);
    if !Valid(s, w) || (!move.Crash? && !(IsWorkerMove(move) && move.worker == w)) {
      if Valid(s, w) {
        OthersKeepWorker(rules, s, move, w);
      } else if IsWorkerMove(move) {
        StepUsesWork(rules, s, move);
      }
    } else {
      StepOfCheckedWorker(rules, s, move, w);
    }
  }

  lemma OnlyAdvanceChecks(rules: Rules, s: State, move: Move, w: nat)
    requires Enabled(rules, s, move) && Valid(s, w) && !move.Advance?
    requires move.Crash? || (IsWorkerMove(move) && move.worker == w)
    ensures var t := Step(rules, s, move); Valid(t, w) ==> !t.workers[w].pc.Checking?
  {
  }

  lemma OnlyFenceEnters(rules: Rules, s: State, w: nat)
    requires CanAdvance(s, w) && !s.workers[w].pc.Checking? && !s.workers[w].pc.AwaitFence?
    ensures var t := AdvanceStep(rules, s, w); Valid(t, w) && !t.workers[w].pc.Checking?
  {
  }

  lemma StepOfCheckedWorker(rules: Rules, s: State, move: Move, w: nat)
    requires Inv(rules, s) && Enabled(rules, s, move) && Valid(s, w)
    requires move.Crash? || (IsWorkerMove(move) && move.worker == w)
    requires var t := Step(rules, s, move); Valid(t, w) && t.workers[w].pc.Checking?
    ensures move == Advance(w) && (s.workers[w].pc.Checking? || s.workers[w].pc.AwaitFence?)
    ensures s.workers[w].pc.AwaitFence? ==>
      Step(rules, s, move).workers[w].cache == EMPTY_CACHE && Step(rules, s, move).workers[w].pc == Checking(StopRead)
  {
    if !move.Advance? {
      OnlyAdvanceChecks(rules, s, move, w);
    } else if s.workers[w].pc.AwaitFence? {
      assert StopOk(s, s.workers[w]);
      assert Step(rules, s, move) == FenceStep(s, w);
    } else if !s.workers[w].pc.Checking? {
      OnlyFenceEnters(rules, s, w);
    }
  }

  /** One more read, seen from the run. */
  lemma ReadStep(rules: Rules, s: State, w: nat)
    requires CanAdvance(s, w) && s.workers[w].pc.Checking?
    requires Step(rules, s, Advance(w)).workers[w].pc.Checking?
    ensures Follows(s.store, s.workers[w], Step(rules, s, Advance(w)).workers[w])
  {
    CheckStepShape(rules, s, w);
    if LeavesCheck(s, CheckStep(rules, s, w), w) {
      LeavingStartsNothing(s, CheckStep(rules, s, w), w);
    } else {
      ReadsStoredRows(rules, s.store, s.clock, s.workers[w], s.workers[w].pc.phase);
    }
  }

  /** A step that leaves worker `w` in its check: a read of its own, or somebody else's step. */
  lemma NextCheck(rules: Rules, s: State, move: Move, w: nat)
    requires Inv(rules, s) && Enabled(rules, s, move) && Valid(s, w) && s.workers[w].pc.Checking?
    requires var t := Step(rules, s, move); Valid(t, w) && t.workers[w].pc.Checking?
    ensures Follows(s.store, s.workers[w], Step(rules, s, move).workers[w])
  {
    assert RoleOk(s.workers[w]);
    CheckStepKinds(rules, s, move, w);
    if move == Advance(w) {
      ReadStep(rules, s, w);
    } else {
      OthersKeepWorker(rules, s, move, w);
    }
  }

  lemma HoldsFenceInCheck(rules: Rules, s: State, w: nat)
    requires Inv(rules, s) && Valid(s, w) && s.workers[w].pc.Checking?
    ensures s.fenceLock == Some(w) && s.workers[w].job.RunJob?
  {
    assert RoleOk(s.workers[w]);
  }

  /** The step to `t` took worker `w` into its check, with an empty session. */
  predicate Enters(s: State, move: Move, t: State, w: nat) {
    && move == Advance(w) && Valid(s, w) && s.workers[w].pc.AwaitFence?
    && Valid(t, w) && t.workers[w].cache == EMPTY_CACHE && t.workers[w].pc == Checking(StopRead)
  }

  /** The last step of a run that ends in the check of worker `w`. */
  lemma LastStep(rules: Rules, states: seq<State>, moves: seq<Move>, w: nat)
    requires Trace(rules, states, moves) && Initial(states[0])
    requires Valid(states[|moves|], w) && states[|moves|].workers[w].pc.Checking?
    ensures |moves| > 0
    ensures states[|moves|].fenceLock == Some(w) && states[|moves|].workers[w].job.RunJob?
    ensures var s, t := states[|moves| - 1], states[|moves|];
      && Valid(s, w)
      && (s.workers[w].pc.Checking? ==> Follows(s.store, s.workers[w], t.workers[w]))
      && (!s.workers[w].pc.Checking? ==> Enters(s, moves[|moves| - 1], t, w))
  {
    var n := |moves| - 1;
    InitialInv(rules, states[0]);
    TraceKeepsInv(rules, states, moves, n);
    TraceKeepsInv(rules, states, moves, n + 1);
    HoldsFenceInCheck(rules, states[n + 1], w);
    CheckStepKinds(rules, states[n], moves[n], w);
    if states[n].workers[w].pc.Checking? {
      NextCheck(rules, states[n], moves[n], w);
    }
  }

  lemma TracePrefix(rules: Rules, states: seq<State>, moves: seq<Move>)
    requires Trace(rules, states, moves) && |moves| > 0
    ensures var n := |moves| - 1;
      && Trace(rules, states[..n + 1], moves[..n])
      && states == states[..n + 1] + [states[n + 1]] && moves == moves[..n] + [moves[n]]
      && states[..n + 1][n] == states[n] && states[..n + 1][0] == states[0]
  {
  }

  /** The last step of a run, added to a check that was recent before it. */
  lemma RecentGoesOn(rules: Rules, states: seq<State>, moves: seq<Move>, w: nat, i: nat)
    requires Trace(rules, states, moves) && Initial(states[0]) && |moves| > 0
    requires Valid(states[|moves|], w) && states[|moves|].workers[w].pc.Checking?
    requires Recent(states[..|moves|], moves[..|moves| - 1], w, i)
    ensures Recent(states, moves, w, i)
  {
    var n := |moves| - 1;
    LastStep(rules, states, moves, w);
    TracePrefix(rules, states, moves);
    RecentExtends(states[..n + 1], moves[..n], w, i, moves[n], states[n + 1]);
  }

  lemma {:induction false} CheckRowsAreRecent(rules: Rules, states: seq<State>, moves: seq<Move>, w: nat)
        returns (i: nat)
    requires Trace(rules, states, moves) && Initial(states[0])
    requires Valid(states[|moves|], w) && states[|moves|].workers[w].pc.Checking?
    ensures Recent(states, moves, w, i)
    decreases |moves|
  {
    LastStep(rules, states, moves, w);
    var n := |moves| - 1;
    if states[n].workers[w].pc.Checking? {
      var before, earlier := states[..n + 1], moves[..n];
      TracePrefix(rules, states, moves);
      assert before[|earlier|] == states[n];
      i := CheckRowsAreRecent(rules, before, earlier, w);
      RecentGoesOn(rules, states, moves, w, i);
    } else {
      i := n + 1;
      EntryIsRecent(states, moves, w);
    }
  }

  lemma EntryIsRecent(states: seq<State>, moves: seq<Move>, w: nat)
    requires |moves| > 0 && |states| == |moves| + 1
    requires Enters(states[|moves| - 1], moves[|moves| - 1], states[|moves|], w)
    requires states[|moves|].fenceLock == Some(w) && states[|moves|].workers[w].job.RunJob?
    ensures Recent(states, moves, w, |moves|)
  {
  }

  // ---------------------------------------------------------------- what those rows say

  /** The session read was open and the target read was usable, at time `since` or later. */
  predicate RowsPassed(rules: Rules, since: Time, cache: Cache) {
    && (cache.session.Some? ==>
          && var row := cache.session.value;
          && (row.state == Draft || row.state == Authorized || row.state == Ready || row.state == InProgress)
          && row.expiresAt.Some? && since < row.expiresAt.value)
    && (cache.target.Some? ==>
          && cache.session.Some? && SessionLive(cache.session.value, since)
          && TargetLive(rules, cache.target.value, since))
  }

  lemma ReadKeepsPassed(rules: Rules, store: Store, now: Time, worker: Worker, phase: Phase, since: Time)
    requires worker.job.RunJob? && ReadPhase(rules, store, now, worker, phase).Continue?
    requires since <= now && RowsPassed(rules, since, worker.cache)
    ensures RowsPassed(rules, since, ReadPhase(rules, store, now, worker, phase).cache)
  {
  }

  lemma OwnReadKeepsPassed(rules: Rules, s: State, w: nat, since: Time)
    requires CanAdvance(s, w) && s.workers[w].pc.Checking? && s.workers[w].job.RunJob?
    requires var t := CheckStep(rules, s, w); Valid(t, w) && t.workers[w].pc.Checking?
    requires since <= s.clock && RowsPassed(rules, since, s.workers[w].cache)
    ensures RowsPassed(rules, since, CheckStep(rules, s, w).workers[w].cache)
  {
    CheckStepShape(rules, s, w);
    if LeavesCheck(s, CheckStep(rules, s, w), w) {
      LeavingStartsNothing(s, CheckStep(rules, s, w), w);
    } else {
      ReadKeepsPassed(rules, s.store, s.clock, s.workers[w], s.workers[w].pc.phase, since);
    }
  }

  lemma StepKeepsPassed(rules: Rules, s: State, move: Move, w: nat, since: Time)
    requires Inv(rules, s) && Enabled(rules, s, move) && Valid(s, w) && s.workers[w].pc.Checking?
    requires var t := Step(rules, s, move); Valid(t, w) && t.workers[w].pc.Checking?
    requires since <= s.clock && RowsPassed(rules, since, s.workers[w].cache)
    ensures RowsPassed(rules, since, Step(rules, s, move).workers[w].cache) && since <= Step(rules, s, move).clock
  {
    CheckStepKinds(rules, s, move, w);
    ClockGoesOn(rules, s, move);
    if move == Advance(w) {
      OwnReadKeepsPassed(rules, s, w, since);
    } else {
      OthersKeepWorker(rules, s, move, w);
    }
  }

  lemma ClockGoesOn(rules: Rules, s: State, move: Move)
    requires Enabled(rules, s, move)
    ensures s.clock <= Step(rules, s, move).clock
  {
    if move.Advance? {
      AdvanceContinues(rules, s, move.worker);
    }
  }

  lemma NextRowsPassed(rules: Rules, states: seq<State>, moves: seq<Move>, w: nat, n: nat, since: Time)
    requires Trace(rules, states, moves) && Initial(states[0]) && n < |moves|
    requires Valid(states[n], w) && states[n].workers[w].pc.Checking?
    requires Valid(states[n + 1], w) && states[n + 1].workers[w].pc.Checking?
    requires since <= states[n].clock && RowsPassed(rules, since, states[n].workers[w].cache)
    ensures since <= states[n + 1].clock && RowsPassed(rules, since, states[n + 1].workers[w].cache)
  {
    var s, move := states[n], moves[n];
    InitialInv(rules, states[0]);
    TraceKeepsInv(rules, states, moves, n);
    assert states[n + 1] == Step(rules, s, move);
    StepKeepsPassed(rules, s, move, w, since);
  }

  /** Under one hold of the fence, whatever was read passed its test since the fence was taken. */
  lemma {:induction false} HeldRowsPassed(rules: Rules, states: seq<State>, moves: seq<Move>, w: nat, i: nat, n: nat)
    requires Trace(rules, states, moves) && Initial(states[0]) && UnderFence(states, moves, w, i)
    requires i <= n < |states|
    ensures states[i].clock <= states[n].clock
    ensures RowsPassed(rules, states[i].clock, states[n].workers[w].cache)
    decreases n
  {
    if n == i {
    } else {
      HeldRowsPassed(rules, states, moves, w, i, n - 1);
      NextRowsPassed(rules, states, moves, w, n - 1, states[i].clock);
    }
  }

  predicate AllHeld(cache: Cache) {
    && cache.stop.Some? && cache.session.Some? && cache.target.Some? && cache.proposal.Some?
    && cache.action.Some? && cache.approval.Some? && cache.policy.Some?
  }

  /** Every row behind a start is a row that was stored at some moment since its worker took the fence,
      under the one hold of the fence that the start ends: the stop, the session, the target, the
      proposal, the action, the approval and the policy.  And the rows say so: no stop, a session that is
      open, confirmed and unexpired, a target that is unlocked, unexpired and private, a running action,
      an approved and used approval that has not expired, and a policy that allows it. */
  lemma StartRowsAreRecent(rules: Rules, states: seq<State>, moves: seq<Move>, w: nat) returns (i: nat)
    requires Trace(rules, states, moves) && Initial(states[0])
    requires Grants(rules, states[|moves|], Advance(w))
    ensures UnderFence(states, moves, w, i) && RowsSince(states, i, states[|moves|].workers[w])
    ensures var s := states[|moves|];
      && AllHeld(s.workers[w].cache)
      && s.workers[w].cache.stop == Some(false) && s.workers[w].cache.policy == Some(true)
      && SessionLive(s.workers[w].cache.session.value, states[i].clock)
      && TargetLive(rules, s.workers[w].cache.target.value, states[i].clock)
      && s.workers[w].cache.action.value.status == Running
      && s.workers[w].cache.approval.value.decision == Approved && s.workers[w].cache.approval.value.used
      && s.clock < s.workers[w].cache.approval.value.expiresAt
      && CanGrant(rules, s.workers[w])
      && Step(rules, s, Advance(w)).starts == s.starts + [MakeGrant(rules, s.workers[w], s.clock)]
  {
    var s := states[|moves|];
    i := CheckRowsAreRecent(rules, states, moves, w);
    HeldRowsPassed(rules, states, moves, w, i, |moves|);
    InitialInv(rules, states[0]);
    TraceKeepsInv(rules, states, moves, |moves|);
    GrantHoldsAll(rules, s, w);
  }

  lemma GrantHoldsAll(rules: Rules, s: State, w: nat)
    requires Inv(rules, s) && Grants(rules, s, Advance(w)) && SessionHeld(s.workers[w])
    ensures AllHeld(s.workers[w].cache) && s.workers[w].cache.stop == Some(false) && CanGrant(rules, s.workers[w])
    ensures s.workers[w].cache.policy == Some(true) && s.workers[w].cache.action.value.status == Running
    ensures var row := s.workers[w].cache.approval.value;
      row.decision == Approved && row.used && s.clock < row.expiresAt
    ensures Step(rules, s, Advance(w)).starts == s.starts + [MakeGrant(rules, s.workers[w], s.clock)]
  {
    CheckRecordsGrant(rules, s, w);
    VerdictIsSound(rules, s, w);
    StartNeedsVerdict(rules, s, w);
    assert CheckOk(rules, s.store, s.workers[w]) && StopOk(s, s.workers[w]);
  }

  // ---------------------------------------------------------------- without emptying it

  /** After the claim, going to the fence with the claim's rows still in the session, but for the stop row:
      the program keeps no reference to that one, so its session lets go of it. */
  function UnemptiedStep(rules: Rules, s: State, w: nat, k: Id, a: Id): State
    requires Enabled(rules, s, Claim(w, k, a))
  {
    var claimed := ClaimStep(rules, s, w, k, a);
    Put(claimed, w, claimed.workers[w].(pc := AwaitFence, cache := claimed.workers[w].cache.(stop := None)))
  }

  /** The claim leaves every row of the check but the stop in the session. */
  lemma ClaimedRowsFit(rules: Rules, s: State, w: nat, k: Id, a: Id, changed: Store)
    requires Enabled(rules, s, Claim(w, k, a)) && !changed.stop
    ensures var worker := UnemptiedStep(rules, s, w, k, a).workers[w].(pc := Checking(StopRead));
      SeenRows(changed, worker) == StoredRows(ClaimStep(rules, s, w, k, a).store, worker)
  {
  }

  /** The rows of a worker's check rewritten in place: each is still found by the columns it is asked for
      by.  Where a query may find another row than the one held, a newer policy decision or the findings
      that stand with the proposal in `content`, nothing is rewritten, and no stop is active. */
  ghost predicate RewrittenInPlace(before: Store, after: Store, worker: Worker)
    requires worker.job.RunJob?
  {
    var was, now := StoredRows(before, worker), StoredRows(after, worker);
    && !after.stop && now.proposal == was.proposal && now.policy == was.policy
    && now.session.Some? && now.action.Some?
    && was.target.Some? && now.target.Some? && now.target.value.id == was.target.value.id
    && was.approval.Some? && now.approval.Some?
    && now.approval.value.sessionId == was.approval.value.sessionId
    && now.approval.value.proposalId == was.approval.value.proposalId
    && now.approval.value.targetId == was.approval.value.targetId
  }

  /** A session that is not emptied starts its run whatever the rows have been rewritten to: the session
      closed, the target locked or at another address, the approval turned into a rejection, the action
      renamed. */
  lemma UnemptiedSessionStarts(rules: Rules, s: State, w: nat, k: Id, a: Id, changed: Store) returns (moves: seq<Move>)
    requires Enabled(rules, s, Claim(w, k, a)) && s.fenceLock.None? && !s.stopped
    requires var claimed := ClaimStep(rules, s, w, k, a);
      RewrittenInPlace(claimed.store, changed, claimed.workers[w])
    ensures var t := UnemptiedStep(rules, s, w, k, a).(store := changed);
      && Runs(rules, t, moves)
      && |Exec(rules, t, moves).starts| == |s.starts| + 1
      && Exec(rules, t, moves).starts[|s.starts|].actionId == a
      && Exec(rules, t, moves).store == changed
  {
    var claimed := ClaimStep(rules, s, w, k, a);
    var t := UnemptiedStep(rules, s, w, k, a).(store := changed);
    ClaimAuthorizes(rules, s, w, k, a);
    ClaimedRowsFit(rules, s, w, k, a, changed);
    var checking := FenceStep(t, w);
    assert Step(rules, t, Advance(w)) == checking;
    var grant := GrantOver(rules, claimed.store, s.clock, claimed.workers[w]);
    var rest := CheckRunsToGrant(rules, claimed.store, checking, w, StopRead, grant);
    RunCons(rules, t, Advance(w), rest);
    moves := [Advance(w)] + rest;
  }
}
