/** Closing a session does not enter the fence, so a check that has already read the session may still
    be granted.  A check that reads it afterwards is not. */
module ClosedSession {
  import opened GuardedExecution
  import opened GuardedExecutionInvariants
  import opened GuardedExecutionTheorems
  import opened GuardedExecutionProgress
  import opened FinalCheck

  predicate Closed(store: Store, sessionId: Id) {
    sessionId in store.sessions ==> IsClosed(store.sessions[sessionId])
  }

  predicate RunsIn(worker: Worker, sessionId: Id) {
    worker.job.RunJob? && worker.job.sessionId == sessionId
  }

  /** The worker is in its final check, past the session row or with an old one in hand. */
  predicate PastRead(worker: Worker) {
    match worker.pc
    case AwaitFence => worker.cache != EMPTY_CACHE
    case Checking(phase) => !(phase == StopRead || phase == SessionRead) || worker.cache.session.Some?
    case _ => false
  }

  /** The actions of the session whose check has read it already. */
  ghost function LateActions(s: State, sessionId: Id): set<Id> {
    set w: nat | w < |s.workers| && RunsIn(s.workers[w], sessionId) && PastRead(s.workers[w]) :: s.workers[w].actionId
  }

  ghost predicate OnlyLate(s: State, sessionId: Id, late: set<Id>) {
    forall w: nat | w < |s.workers| && RunsIn(s.workers[w], sessionId) && PastRead(s.workers[w]) ::
      s.workers[w].actionId in late
  }

  /** The session is closed in every state of the run, the first and the last included. */
  ghost predicate StaysClosed(rules: Rules, s: State, moves: seq<Move>, sessionId: Id)
    requires Runs(rules, s, moves)
    decreases |moves|
  {
    && Closed(s.store, sessionId)
    && (moves == [] || StaysClosed(rules, Step(rules, s, moves[0]), moves[1..], sessionId))
  }

  /** Worker `w` moved and went on with its action; if it is late now, it was late before. */
  ghost predicate NotLater(s: State, t: State, w: nat, sessionId: Id) {
    && OnlyWorker(s, t, w)
    && (RunsIn(t.workers[w], sessionId) && PastRead(t.workers[w]) ==>
          && RunsIn(s.workers[w], sessionId) && PastRead(s.workers[w])
          && t.workers[w].actionId == s.workers[w].actionId)
  }

  lemma OnlyLateFromWorker(s: State, t: State, w: nat, sessionId: Id, late: set<Id>)
    requires OnlyLate(s, sessionId, late) && NotLater(s, t, w, sessionId)
    ensures OnlyLate(t, sessionId, late)
  {
  }

  lemma ReadIsNotLater(rules: Rules, s: State, w: nat, sessionId: Id)
    requires CanAdvance(s, w) && s.workers[w].pc.Checking? && Closed(s.store, sessionId)
    requires ReadsOn(rules, s, CheckStep(rules, s, w), w)
    ensures NotLater(s, CheckStep(rules, s, w), w, sessionId)
  {
  }

  lemma CheckIsNotLater(rules: Rules, s: State, w: nat, sessionId: Id)
    requires CanAdvance(s, w) && s.workers[w].pc.Checking? && Closed(s.store, sessionId)
    ensures NotLater(s, CheckStep(rules, s, w), w, sessionId)
  {
    CheckStepShape(rules, s, w);
    if ReadsOn(rules, s, CheckStep(rules, s, w), w) {
      ReadIsNotLater(rules, s, w, sessionId);
    }
  }

  /** Only the two steps to and through the fence lead towards a check. */
  lemma NoWayBack(rules: Rules, s: State, w: nat)
    requires CanAdvance(s, w)
    requires !s.workers[w].pc.Checking? && !s.workers[w].pc.Claimed? && !s.workers[w].pc.AwaitFence?
    ensures var t := AdvanceStep(rules, s, w); Valid(t, w) && !t.workers[w].pc.Checking? && !t.workers[w].pc.AwaitFence?
  {
  }

  lemma AdvanceIsNotLater(rules: Rules, s: State, w: nat, sessionId: Id)
    requires CanAdvance(s, w) && !s.workers[w].pc.Checking?
    ensures NotLater(s, AdvanceStep(rules, s, w), w, sessionId)
  {
    StepUsesWork(rules, s, Advance(w));
    if s.workers[w].pc.Claimed? {
      assert AdvanceStep(rules, s, w) == ExpireStep(s, w);
    } else if s.workers[w].pc.AwaitFence? {
      assert AdvanceStep(rules, s, w) == FenceStep(s, w);
    } else {
      NoWayBack(rules, s, w);
    }
  }

  lemma ClaimIsNotLater(rules: Rules, s: State, w: nat, k: Id, a: Id, sessionId: Id)
    requires Enabled(rules, s, Claim(w, k, a))
    ensures NotLater(s, ClaimStep(rules, s, w, k, a), w, sessionId)
  {
  }

  lemma OtherIsNotLater(rules: Rules, s: State, move: Move, sessionId: Id, late: set<Id>)
    requires Enabled(rules, s, move) && !move.Advance? && !move.Claim? && OnlyLate(s, sessionId, late)
    ensures OnlyLate(Step(rules, s, move), sessionId, late)
  {
  }

  lemma StepIsNotLater(rules: Rules, s: State, move: Move, sessionId: Id, late: set<Id>)
    requires Enabled(rules, s, move) && OnlyLate(s, sessionId, late) && Closed(s.store, sessionId)
    ensures OnlyLate(Step(rules, s, move), sessionId, late)
  {
    if move.Advance? {
      if s.workers[move.worker].pc.Checking? {
        CheckIsNotLater(rules, s, move.worker, sessionId);
      } else {
        AdvanceIsNotLater(rules, s, move.worker, sessionId);
      }
      OnlyLateFromWorker(s, Step(rules, s, move), move.worker, sessionId, late);
    } else if move.Claim? {
      ClaimIsNotLater(rules, s, move.worker, move.approvalId, move.actionId, sessionId);
      OnlyLateFromWorker(s, Step(rules, s, move), move.worker, sessionId, late);
    } else {
      OtherIsNotLater(rules, s, move, sessionId, late);
    }
  }

  /** Starts from index `from` on are of other sessions or of late actions. */
  ghost predicate OthersOrLate(starts: seq<Grant>, from: nat, sessionId: Id, late: set<Id>) {
    forall i | from <= i < |starts| :: starts[i].sessionId != sessionId || starts[i].actionId in late
  }

  lemma CheckStartsOnlyLate(rules: Rules, s: State, w: nat, sessionId: Id, late: set<Id>)
    requires CanAdvance(s, w) && s.workers[w].pc.Checking? && OnlyLate(s, sessionId, late)
    ensures s.starts <= CheckStep(rules, s, w).starts
    ensures OthersOrLate(CheckStep(rules, s, w).starts, |s.starts|, sessionId, late)
  {
    if CheckStep(rules, s, w).starts != s.starts {
      assert CheckStep(rules, s, w) == GrantStep(rules, s, w);
      assert CheckStep(rules, s, w).starts == s.starts + [MakeGrant(rules, s.workers[w], s.clock)];
      assert PastRead(s.workers[w]);
    }
  }

  lemma StepStartsOnlyLate(rules: Rules, s: State, move: Move, sessionId: Id, late: set<Id>)
    requires Enabled(rules, s, move) && OnlyLate(s, sessionId, late)
    ensures s.starts <= Step(rules, s, move).starts
    ensures OthersOrLate(Step(rules, s, move).starts, |s.starts|, sessionId, late)
  {
    if move.Advance? && s.workers[move.worker].pc.Checking? {
      CheckStartsOnlyLate(rules, s, move.worker, sessionId, late);
    } else {
      StartsOnlyInCheck(rules, s, move);
    }
  }

  lemma {:induction false} RunStartsOnlyLate(rules: Rules, s: State, moves: seq<Move>, sessionId: Id, late: set<Id>)
    requires Runs(rules, s, moves) && StaysClosed(rules, s, moves, sessionId) && OnlyLate(s, sessionId, late)
    ensures s.starts <= Exec(rules, s, moves).starts
    ensures OthersOrLate(Exec(rules, s, moves).starts, |s.starts|, sessionId, late)
    decreases |moves|
  {
    if moves == [] {
    } else {
      var t := Step(rules, s, moves[0]);
      StepIsNotLater(rules, s, moves[0], sessionId, late);
      StepStartsOnlyLate(rules, s, moves[0], sessionId, late);
      RunStartsOnlyLate(rules, t, moves[1..], sessionId, late);
      var last := Exec(rules, s, moves).starts;
      forall i | |s.starts| <= i < |last| ensures last[i].sessionId != sessionId || last[i].actionId in late {
        assert i < |t.starts| ==> last[i] == t.starts[i];
      }
    }
  }

  /** Whatever else is in flight, a start added while a session is closed is of another session, or of
      an action whose check had read the session when it was closed: no check that reads it later adds
      a start. */
  lemma NoStartInClosedSession(rules: Rules, s: State, moves: seq<Move>, sessionId: Id)
    requires Runs(rules, s, moves) && StaysClosed(rules, s, moves, sessionId)
    ensures s.starts <= Exec(rules, s, moves).starts
    ensures OthersOrLate(Exec(rules, s, moves).starts, |s.starts|, sessionId, LateActions(s, sessionId))
  {
    RunStartsOnlyLate(rules, s, moves, sessionId, LateActions(s, sessionId));
  }

  // ---------------------------------------------------------------- a late check does start

  /** What closing a session writes: its state, and the lock of its target. */
  function CloseSession(store: Store, sessionId: Id): Move
    requires sessionId in store.sessions && sessionId in store.targets
  {
    Tamper(store.sessions[sessionId := store.sessions[sessionId].(state := SessionState.Closed)],
           store.targets[sessionId := store.targets[sessionId].(locked := true)],
           store.proposals, store.policies, map[])
  }

  /** With session and target already read, the close changes nothing the check still reads. */
  lemma CloseComesTooLate(rules: Rules, s: State, w: nat, grant: Grant) returns (moves: seq<Move>)
    requires Passing(rules, s.store, s, w, ProposalRead, grant) && s.writeLock.None?
    ensures var sessionId := s.workers[w].job.sessionId;
      && grant.sessionId == sessionId && grant.actionId == s.workers[w].actionId
      && sessionId in s.store.sessions && sessionId in s.store.targets
      && var close := CloseSession(s.store, sessionId);
      && Enabled(rules, s, close)
      && var t := Step(rules, s, close);
      && Closed(t.store, sessionId) && Runs(rules, t, moves)
      && Exec(rules, t, moves).store == t.store && Exec(rules, t, moves).starts == s.starts + [grant]
  {
    var sessionId := s.workers[w].job.sessionId;
    var t := Step(rules, s, CloseSession(s.store, sessionId));
    assert t.store.actions == s.store.actions;
    assert Passing(rules, s.store, t, w, ProposalRead, grant);
    moves := CheckRunsToGrant(rules, s.store, t, w, ProposalRead, grant);
  }

  /** From any claimed run that may start: its check reads session and target, the session is closed, and
      the run starts all the same, in the closed session. */
  lemma LateCheckStartsAfterClose(rules: Rules, s: State, w: nat) returns (before: seq<Move>, after: seq<Move>)
    requires Valid(s, w) && s.workers[w].pc.Claimed? && s.workers[w].job.RunJob? && s.writeLock.None?
    requires s.fenceLock.None? && !s.stopped && MayStart(rules, s.store, s.clock, s.workers[w])
    ensures Runs(rules, s, before)
    ensures var t := Exec(rules, s, before); var sessionId := s.workers[w].job.sessionId;
      && t.starts == s.starts && t.store == s.store
      && sessionId in t.store.sessions && sessionId in t.store.targets
      && var close := CloseSession(t.store, sessionId);
      && Enabled(rules, t, close)
      && var u := Step(rules, t, close);
      && Closed(u.store, sessionId) && Runs(rules, u, after)
      && var last := Exec(rules, u, after);
      && Closed(last.store, sessionId) && |last.starts| == |s.starts| + 1
      && last.starts[|s.starts|].sessionId == sessionId && last.starts[|s.starts|].actionId == s.workers[w].actionId
  {
    ClaimReachesFence(rules, s, w);
    var first := [Advance(w), Advance(w)];
    var fenced := Exec(rules, s, first);
    var grant := GrantOver(rules, s.store, s.clock, s.workers[w]);
    var reading := ReadsOnTo(rules, s.store, fenced, w, StopRead, ProposalRead, grant);
    RunAppend(rules, s, first, reading);
    before := first + reading;
    after := CloseComesTooLate(rules, Exec(rules, s, before), w, grant);
  }
}
