/** A claimed run that nobody disturbs, from its claim to its end: the steps of the protocol do what the
    handler does when it runs alone. */
module RunToEnd {
  import opened Wrappers
  import opened ActionNames
  import opened GuardedExecution
  import opened GuardedExecutionProgress
  import opened FinalCheck

  /** `t` is `s` with worker `w` out of its final check, which gave `result`; both locks are free. */
  ghost predicate OutOfCheck(s: State, t: State, w: nat, result: CheckResult) {
    && Valid(s, w) && s.workers[w].job.RunJob? && Valid(t, w)
    && t.workers[w].job == s.workers[w].job && t.workers[w].actionId == s.workers[w].actionId
    && t.dispatches == s.dispatches && t.writeLock.None? && t.fenceLock.None?
    && t.starts == (if result.Allowed? then s.starts + [result.grant] else s.starts)
    && t.stopped == (s.stopped || result.NotAllowed?)
    && t.store == (if result == Raised(true) then RefusalStore(s.store, s.workers[w].job.sessionId, s.clock)
                   else s.store)
    && (if result.Allowed? then t.workers[w].pc.Granted? && t.workers[w].grant == Some(result.grant)
        else t.workers[w].pc.AwaitPersist? && t.workers[w].outcome == Cancelled)
  }

  /** The check depends on the rows a worker holds, not on where it is. */
  lemma {:induction false} PlaceDoesNotMatter(rules: Rules, store: Store, now: Time, worker: Worker, pc: Pc,
                                              phase: Phase)
    requires worker.job.RunJob?
    ensures CheckFrom(rules, store, now, worker.(pc := pc), phase) == CheckFrom(rules, store, now, worker, phase)
    decreases PhaseRank(phase)
  {
    var moved := worker.(pc := pc);
    assert ReadPhase(rules, store, now, moved, phase) == ReadPhase(rules, store, now, worker, phase);
    match ReadPhase(rules, store, now, worker, phase) {
      case Continue(cache) =>
        if phase != Verdict {
          PlaceDoesNotMatter(rules, store, now, worker.(cache := cache), pc, NextPhase(phase));
          assert moved.(cache := cache) == worker.(cache := cache).(pc := pc);
        }
      case _ =>
    }
  }

  /** A refusal that commits first takes the write lock, commits and leaves. */
  lemma RefusalCommits(rules: Rules, s: State, t: State, w: nat, marks: bool)
    requires Valid(s, w) && s.workers[w].job.RunJob? && s.writeLock.None? && !s.stopped
    requires t == MoveTo(s, w, CheckAwaitWrite(marks))
    ensures Runs(rules, t, [Advance(w), Advance(w)])
    ensures OutOfCheck(s, Exec(rules, t, [Advance(w), Advance(w)]), w, Raised(marks))
  {
    var u := Step(rules, t, Advance(w));
    assert u == TakeWrite(t, w, CheckWriting(marks));
    assert Step(rules, u, Advance(w)) == CheckWriteStep(u, w);
    RunTwo(rules, t, Advance(w), Advance(w));
  }

  lemma RefusalEnds(rules: Rules, s: State, w: nat, phase: Phase, marks: bool)
    requires Valid(s, w) && s.workers[w].pc == Checking(phase) && s.workers[w].job.RunJob?
    requires s.writeLock.None? && !s.stopped
    requires ReadPhase(rules, s.store, s.clock, s.workers[w], phase) == RaiseAfterWrite(marks)
    ensures Runs(rules, s, [Advance(w)] + [Advance(w), Advance(w)])
    ensures OutOfCheck(s, Exec(rules, s, [Advance(w)] + [Advance(w), Advance(w)]), w, Raised(marks))
  {
    RefusalCommits(rules, s, Step(rules, s, Advance(w)), w, marks);
    RunCons(rules, s, Advance(w), [Advance(w), Advance(w)]);
  }

  lemma OtherEnds(rules: Rules, s: State, w: nat, phase: Phase)
    requires Valid(s, w) && s.workers[w].pc == Checking(phase) && s.workers[w].job.RunJob?
    requires s.writeLock.None? && !s.stopped
    requires var read := ReadPhase(rules, s.store, s.clock, s.workers[w], phase);
      read.Stopped? || read.Raise? || (read.Continue? && phase == Verdict)
    ensures Runs(rules, s, [Advance(w)])
    ensures OutOfCheck(s, Exec(rules, s, [Advance(w)]), w, CheckFrom(rules, s.store, s.clock, s.workers[w], phase))
  {
    RunOne(rules, s, Advance(w));
    assert Step(rules, s, Advance(w)) == CheckStep(rules, s, w);
  }

  lemma ReadOnThenOut(s: State, t: State, u: State, w: nat, result: CheckResult)
    requires Valid(s, w) && s.workers[w].job.RunJob? && OutOfCheck(t, u, w, result)
    requires t == Put(s, w, t.workers[w])
    requires t.workers[w].job == s.workers[w].job && t.workers[w].actionId == s.workers[w].actionId
    ensures OutOfCheck(s, u, w, result)
  {
  }

  /** Undisturbed, the reads of the protocol come to the result of the whole check. */
  lemma {:induction false} CheckRunsToEnd(rules: Rules, s: State, w: nat, phase: Phase) returns (moves: seq<Move>)
    requires Valid(s, w) && s.workers[w].pc == Checking(phase) && s.workers[w].job.RunJob?
    requires s.writeLock.None? && !s.stopped
    ensures Runs(rules, s, moves)
    ensures OutOfCheck(s, Exec(rules, s, moves), w, CheckFrom(rules, s.store, s.clock, s.workers[w], phase))
    decreases PhaseRank(phase)
  {
    var read := ReadPhase(rules, s.store, s.clock, s.workers[w], phase);
    if read.RaiseAfterWrite? {
      RefusalEnds(rules, s, w, phase, read.marks);
      moves := [Advance(w)] + [Advance(w), Advance(w)];
    } else if read.Continue? && phase != Verdict {
      var next := s.workers[w].(pc := Checking(NextPhase(phase)), cache := read.cache);
      var t := Put(s, w, next);
      assert Step(rules, s, Advance(w)) == t;
      var rest := CheckRunsToEnd(rules, t, w, NextPhase(phase));
      PlaceDoesNotMatter(rules, s.store, s.clock, s.workers[w].(cache := read.cache), next.pc, NextPhase(phase));
      ReadOnThenOut(s, t, Exec(rules, t, rest), w, CheckFrom(rules, s.store, s.clock, s.workers[w], phase));
      RunCons(rules, s, Advance(w), rest);
      moves := [Advance(w)] + rest;
    } else {
      OtherEnds(rules, s, w, phase);
      moves := [Advance(w)];
    }
  }

  /** What the fence answers a claimed worker: no under the flag, and else what the check gives. */
  function Answer(rules: Rules, s: State, w: nat): CheckResult
    requires Valid(s, w) && s.workers[w].job.RunJob?
  {
    if s.stopped then NotAllowed
    else CheckFrom(rules, s.store, s.clock, s.workers[w].(cache := EMPTY_CACHE), StopRead)
  }

  lemma ClaimedReachesCheck(rules: Rules, s: State, w: nat)
    requires Valid(s, w) && s.workers[w].pc.Claimed? && s.workers[w].job.RunJob? && s.fenceLock.None?
    ensures Runs(rules, s, [Advance(w), Advance(w)])
    ensures Exec(rules, s, [Advance(w), Advance(w)]) ==
      if s.stopped then Put(s, w, s.workers[w].(pc := AwaitPersist, cache := EMPTY_CACHE, outcome := Cancelled))
      else Put(s, w, s.workers[w].(pc := Checking(StopRead), cache := EMPTY_CACHE)).(fenceLock := Some(w))
  {
    var t := Step(rules, s, Advance(w));
    assert t == ExpireStep(s, w);
    assert Step(rules, t, Advance(w)) == FenceStep(t, w);
    RunTwo(rules, s, Advance(w), Advance(w));
  }

  lemma ClaimedIsAnswered(rules: Rules, s: State, w: nat) returns (moves: seq<Move>)
    requires Valid(s, w) && s.workers[w].pc.Claimed? && s.workers[w].job.RunJob?
    requires s.fenceLock.None? && s.writeLock.None?
    ensures Runs(rules, s, moves) && OutOfCheck(s, Exec(rules, s, moves), w, Answer(rules, s, w))
  {
    var first := [Advance(w), Advance(w)];
    ClaimedReachesCheck(rules, s, w);
    if s.stopped {
      moves := first;
    } else {
      var t := Exec(rules, s, first);
      var rest := CheckRunsToEnd(rules, t, w, StopRead);
      PlaceDoesNotMatter(rules, s.store, s.clock, s.workers[w].(cache := EMPTY_CACHE), Checking(StopRead), StopRead);
      RunAppend(rules, s, first, rest);
      moves := first + rest;
    }
  }

  /** `t` is `s` with worker `w` about to record what became of it. */
  ghost predicate ReadyToRecord(s: State, t: State, w: nat, result: CheckResult, answer: Option<ActionStatus>) {
    && Valid(s, w) && s.workers[w].job.RunJob? && Valid(t, w)
    && t.workers[w].pc.AwaitPersist? && t.workers[w].actionId == s.workers[w].actionId
    && t.workers[w].outcome == (if !result.Allowed? then Cancelled else if answer.Some? then answer.value else Failed)
    && t.writeLock.None?
    && t.starts == (if result.Allowed? then s.starts + [result.grant] else s.starts)
    && t.dispatches == (if result.Allowed? && answer.Some? then s.dispatches + [result.grant] else s.dispatches)
    && t.stopped == (s.stopped || result.NotAllowed?)
    && t.store == (if result == Raised(true) then RefusalStore(s.store, s.workers[w].job.sessionId, s.clock)
                   else s.store)
  }

  /** What a dispatcher may answer; None when there is no dispatcher. */
  predicate IsAnswer(answer: Option<ActionStatus>) {
    answer.Some? ==> answer.value in {Completed, Failed, TimedOut}
  }

  lemma AnswerIsActedOn(rules: Rules, s: State, t: State, w: nat, result: CheckResult, answer: Option<ActionStatus>)
        returns (moves: seq<Move>)
    requires OutOfCheck(s, t, w, result) && IsAnswer(answer)
    ensures Runs(rules, t, moves) && ReadyToRecord(s, Exec(rules, t, moves), w, result, answer)
  {
    if result.Allowed? && answer.Some? {
      assert Step(rules, t, Advance(w)) == DispatchStep(t, w);
      RunTwo(rules, t, Advance(w), Returned(w, answer.value));
      moves := [Advance(w), Returned(w, answer.value)];
    } else if result.Allowed? {
      RunOne(rules, t, NoDispatcher(w));
      moves := [NoDispatcher(w)];
    } else {
      moves := [];
    }
  }

  lemma OutcomeIsLeft(rules: Rules, s: State, w: nat) returns (moves: seq<Move>)
    requires Valid(s, w) && s.workers[w].pc.AwaitPersist? && s.writeLock.None?
    ensures Runs(rules, s, moves)
    ensures var t := Exec(rules, s, moves);
      && Valid(t, w) && t.workers[w].pc.Finished?
      && t.store == Left(s.store, s.workers[w].actionId, s.workers[w].outcome)
      && t.starts == s.starts && t.dispatches == s.dispatches && t.stopped == s.stopped
  {
    if HasParser(s.store, s.workers[w].actionId) {
      OutcomeIsRecorded(rules, s, w);
      moves := [Advance(w), Advance(w)];
    } else {
      assert Step(rules, s, Advance(w)) == MoveTo(s, w, Finished);
      RunOne(rules, s, Advance(w));
      moves := [Advance(w)];
    }
  }

  /** The end of a claimed run that nobody disturbs, said of its claim alone. */
  ghost predicate EndsAs(rules: Rules, s: State, t: State, w: nat, answer: Option<ActionStatus>)
    requires Valid(s, w) && s.workers[w].job.RunJob?
  {
    var worker := s.workers[w];
    var starts := !s.stopped && MayStart(rules, s.store, s.clock, worker);
    var granted := if starts then [GrantOver(rules, s.store, s.clock, worker)] else [];
    && Valid(t, w) && t.workers[w].pc.Finished?
    && t.starts == s.starts + granted
    && t.dispatches == s.dispatches + (if answer.Some? then granted else [])
    && t.stopped == (s.stopped || s.store.stop)
    && t.store == Left(Checked(s.store, s.stopped, worker.job.sessionId, s.clock), worker.actionId,
                        if !starts then Cancelled else if answer.Some? then answer.value else Failed)
  }

  lemma AnswerIsAsStored(rules: Rules, s: State, w: nat)
    requires Valid(s, w) && s.workers[w].job.RunJob?
    ensures var result := Answer(rules, s, w); var worker := s.workers[w];
      && (result.Allowed? <==> !s.stopped && MayStart(rules, s.store, s.clock, worker))
      && (result.Allowed? ==> result.grant == GrantOver(rules, s.store, s.clock, worker))
      && (s.stopped || result.NotAllowed? <==> s.stopped || s.store.stop)
      && (if result == Raised(true) then RefusalStore(s.store, worker.job.sessionId, s.clock) else s.store)
           == Checked(s.store, s.stopped, worker.job.sessionId, s.clock)
  {
    if !s.stopped {
      var emptied := s.workers[w].(cache := EMPTY_CACHE);
      CheckAcceptsExactlyStartable(rules, s.store, s.clock, emptied);
      OverdueIsMarked(rules, s.store, s.clock, emptied);
    }
  }

  /** From any claim with both locks free, the worker by its own steps and the dispatcher's answer, if there is
      a dispatcher, comes to the end that the handler running alone comes to: started exactly when the rows
      allow it, dispatched as granted, and its outcome recorded exactly when its action row has a registered name. */
  lemma ClaimedRunEnds(rules: Rules, s: State, w: nat, answer: Option<ActionStatus>) returns (moves: seq<Move>)
    requires Valid(s, w) && s.workers[w].pc.Claimed? && s.workers[w].job.RunJob?
    requires s.fenceLock.None? && s.writeLock.None? && IsAnswer(answer)
    ensures Runs(rules, s, moves) && EndsAs(rules, s, Exec(rules, s, moves), w, answer)
  {
    AnswerIsAsStored(rules, s, w);
    var first := ClaimedIsAnswered(rules, s, w);
    var t := Exec(rules, s, first);
    var second := AnswerIsActedOn(rules, s, t, w, Answer(rules, s, w), answer);
    var u := Exec(rules, t, second);
    var third := OutcomeIsLeft(rules, u, w);
    RunAppend(rules, t, second, third);
    RunAppend(rules, s, first, second + third);
    moves := first + (second + third);
  }

  /** The end with nothing recorded is reached from every claim: renaming its action row to a name that is
      not registered keeps the run from starting and leaves the action running, with no result. */
  lemma RenamedClaimIsLost(rules: Rules, s: State, w: nat, name: string) returns (moves: seq<Move>)
    requires Valid(s, w) && s.workers[w].pc.Claimed? && s.workers[w].job.RunJob?
    requires s.fenceLock.None? && s.writeLock.None? && !s.stopped
    requires MayStart(rules, s.store, s.clock, s.workers[w])
    requires !IsRegistered(name) && name != s.store.actions[s.workers[w].actionId].name
    ensures var rename := Rename(s.store, s.workers[w].actionId, name);
      && Enabled(rules, s, rename) && Runs(rules, Step(rules, s, rename), moves)
      && var t := Exec(rules, Step(rules, s, rename), moves); var a := s.workers[w].actionId;
      && Valid(t, w) && t.workers[w].pc.Finished? && t.starts == s.starts && t.dispatches == s.dispatches
      && t.store.actions == s.store.actions[a := s.store.actions[a].(name := name)]
      && t.store.results == s.store.results && t.store.audit == s.store.audit
  {
    var a := s.workers[w].actionId;
    var t := Step(rules, s, Rename(s.store, a, name));
    assert t.store.actions == s.store.actions[a := s.store.actions[a].(name := name)];
    var job := s.workers[w].job;
    assert DecisionContext(rules, t.store, job.sessionId, job.proposalId, s.clock)
      == DecisionContext(rules, s.store, job.sessionId, job.proposalId, s.clock);
    moves := ClaimedRunEnds(rules, t, w, None);
  }
}
