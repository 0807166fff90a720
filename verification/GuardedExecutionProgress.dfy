/** Lock order, freedom from deadlock and termination of the guarded execution protocol. */
module GuardedExecutionProgress {
  import opened Wrappers
  import opened ActionNames
  import opened GuardedExecution
  import opened GuardedExecutionInvariants
  import opened GuardedExecutionTheorems

  // ---------------------------------------------------------------- lock order

  /** In every reachable state: whoever waits for the fence holds no lock, so nobody holds the
      database while waiting for it; a dispatch holds neither lock; and each lock has one holder. */
  lemma LockOrder(rules: Rules, s: State, moves: seq<Move>)
    requires Initial(s) && Runs(rules, s, moves)
    ensures var t := Exec(rules, s, moves);
      && (forall w: nat | w < |t.workers| ::
            && (AwaitsFence(t.workers[w]) || t.workers[w].pc.Dispatching? ==>
                  t.writeLock != Some(w) && t.fenceLock != Some(w))
            && (t.writeLock == Some(w) ==> !AwaitsFence(t.workers[w]) && !AwaitsWrite(t.workers[w])))
      && (forall v: nat, w: nat | v < |t.workers| && w < |t.workers| && v != w ::
            && !(HoldsWrite(t.workers[v].pc) && HoldsWrite(t.workers[w].pc))
            && !(HoldsFence(t.workers[v].pc) && HoldsFence(t.workers[w].pc)))
  {
    InitialInv(rules, s);
    RunKeepsInv(rules, s, moves);
  }

  // ---------------------------------------------------------------- fresh keys

  /** A string longer than every key is not a key. */
  lemma {:induction false} LongerThanAll(keys: set<Id>) returns (id: Id)
    ensures id !in keys
    ensures forall k <- keys :: |k| < |id|
  {
    if keys == {} {
      id := "";
    } else {
      var k :| k in keys;
      var rest := LongerThanAll(keys - {k});
      id := rest + k + "x";
    }
  }

  // ---------------------------------------------------------------- no deadlock

  /** A step that a worker takes by itself: not the return of a dispatch, not a failure. */
  predicate IsOwnStep(move: Move) {
    move.Advance? || move.Claim? || move.Deny? || move.Decide? || move.DecideRefused?
  }

  /** A worker inside a transaction can always finish it. */
  lemma TransactionCanEnd(rules: Rules, s: State, w: nat) returns (move: Move)
    requires Inv(rules, s) && Valid(s, w) && s.workers[w].pc.InTransaction?
    ensures Enabled(rules, s, move) && IsOwnStep(move) && move.worker == w
  {
    var job := s.workers[w].job;
    assert RoleOk(s.workers[w]);
    if job.DecideJob? {
      if CanDecide(rules, s.store, job, s.clock) {
        var k := LongerThanAll(s.store.approvals.Keys);
        move := Decide(w, k);
      } else {
        move := DecideRefused(w);
      }
    } else if exists k <- s.store.approvals :: CanClaim(rules, s.store, job.sessionId, job.proposalId, k, s.clock) {
      var k :| k in s.store.approvals && CanClaim(rules, s.store, job.sessionId, job.proposalId, k, s.clock);
      var a := LongerThanAll(s.store.actions.Keys);
      move := Claim(w, k, a);
    } else {
      move := Deny(w);
    }
  }

  /** The holder of the database lock is never blocked. */
  lemma WriterCanStep(rules: Rules, s: State) returns (move: Move)
    requires Inv(rules, s) && s.writeLock.Some?
    ensures Enabled(rules, s, move) && IsOwnStep(move) && move.worker == s.writeLock.value
  {
    var w := s.writeLock.value;
    assert HoldsWrite(s.workers[w].pc) && RoleOk(s.workers[w]) && OwnerOk(s.store, s.workers[w]);
    if s.workers[w].pc.InTransaction? {
      move := TransactionCanEnd(rules, s, w);
    } else {
      move := Advance(w);
    }
  }

  /** With the database free, the holder of the fence is not blocked. */
  lemma FenceHolderCanStep(rules: Rules, s: State)
    requires Inv(rules, s) && s.writeLock.None? && s.fenceLock.Some?
    ensures CanAdvance(s, s.fenceLock.value)
  {
  }

  lemma FreeWorkerCanStep(rules: Rules, s: State, w: nat)
    requires Inv(rules, s) && s.writeLock.None? && s.fenceLock.None?
    requires Valid(s, w) && !s.workers[w].pc.Finished? && !s.workers[w].pc.Dispatching?
    ensures CanAdvance(s, w)
  {
  }

  /** No reachable state is stuck: while some worker is neither finished nor inside a dispatch, some
      worker has a step of its own. */
  lemma NoDeadlock(rules: Rules, s: State, w: nat) returns (move: Move)
    requires Inv(rules, s)
    requires Valid(s, w) && !s.workers[w].pc.Finished? && !s.workers[w].pc.Dispatching?
    ensures Enabled(rules, s, move) && IsOwnStep(move)
  {
    if s.writeLock.Some? {
      move := WriterCanStep(rules, s);
    } else if s.fenceLock.Some? {
      FenceHolderCanStep(rules, s);
      move := Advance(s.fenceLock.value);
    } else {
      FreeWorkerCanStep(rules, s, w);
      move := Advance(w);
    }
  }

  // ---------------------------------------------------------------- termination

  function PhaseRank(phase: Phase): nat {
    match phase
    case StopRead => 8
    case SessionRead => 7
    case TargetRead => 6
    case ProposalRead => 5
    case ActionRead => 4
    case ApprovalRead => 3
    case PolicyRead => 2
    case StopReread => 1
    case Verdict => 0
  }

  /** How many more steps a worker can take. */
  function Rank(pc: Pc): nat {
    match pc
    case Begin => 20
    case InTransaction => 19
    case Claimed => 18
    case AwaitFence => 17
    case Checking(phase) => 8 + PhaseRank(phase)
    case CheckAwaitWrite(_) => 5
    case CheckWriting(_) => 4
    case Granted => 7
    case Dispatching => 3
    case AwaitPersist => 2
    case Persisting => 1
    case StopFenced => 2
    case StopWriting => 1
    case ClearFenced => 3
    case ClearWriting => 2
    case ClearCommitted => 1
    case Finished => 0
  }

  function Work(workers: seq<Worker>): nat {
    if workers == [] then 0 else Rank(workers[0].pc) + Work(workers[1..])
  }

  lemma {:induction false} WorkOfUpdate(workers: seq<Worker>, w: nat, worker: Worker)
    requires w < |workers|
    ensures Work(workers[w := worker]) == Work(workers) - Rank(workers[w].pc) + Rank(worker.pc)
  {
    if w == 0 {
      assert workers[w := worker][1..] == workers[1..];
    } else {
      assert workers[w := worker][1..] == workers[1..][w - 1 := worker];
      WorkOfUpdate(workers[1..], w - 1, worker);
    }
  }

  /** Only worker `w` changed, and it is closer to its end. */
  ghost predicate Closer(s: State, t: State, w: nat) {
    && w < |s.workers| == |t.workers|
    && t.workers == s.workers[w := t.workers[w]]
    && Rank(t.workers[w].pc) < Rank(s.workers[w].pc)
  }

  lemma CheckGetsCloser(rules: Rules, s: State, w: nat)
    requires CanAdvance(s, w) && s.workers[w].pc.Checking?
    ensures Closer(s, CheckStep(rules, s, w), w)
  {
    CheckStepShape(rules, s, w);
  }

  lemma UnderwayGetsCloser(rules: Rules, s: State, w: nat)
    requires CanAdvance(s, w)
    requires IsUnderway(s.workers[w].pc)
    ensures Closer(s, AdvanceStep(rules, s, w), w)
  {
  }

  lemma CommitGetsCloser(rules: Rules, s: State, w: nat)
    requires CanAdvance(s, w) && Commits(s.workers[w].pc)
    ensures Closer(s, AdvanceStep(rules, s, w), w)
  {
  }

  lemma LateGetsCloser(rules: Rules, s: State, w: nat)
    requires CanAdvance(s, w) && !s.workers[w].pc.Checking? && !IsUnderway(s.workers[w].pc) && !Commits(s.workers[w].pc)
    ensures Closer(s, AdvanceStep(rules, s, w), w)
  {
  }

  lemma MoveGetsCloser(rules: Rules, s: State, move: Move)
    requires Enabled(rules, s, move) && IsWorkerMove(move) && !move.Advance?
    ensures Closer(s, Step(rules, s, move), move.worker)
  {
  }

  /** Every step of a worker, a return and a failure included, uses up some of the work left. */
  lemma StepUsesWork(rules: Rules, s: State, move: Move)
    requires Enabled(rules, s, move) && IsWorkerMove(move)
    ensures Closer(s, Step(rules, s, move), move.worker)
    ensures Work(Step(rules, s, move).workers) < Work(s.workers)
  {
    var w := move.worker;
    if !move.Advance? {
      MoveGetsCloser(rules, s, move);
    } else if s.workers[w].pc.Checking? {
      CheckGetsCloser(rules, s, w);
    } else if IsUnderway(s.workers[w].pc) {
      UnderwayGetsCloser(rules, s, w);
    } else if Commits(s.workers[w].pc) {
      CommitGetsCloser(rules, s, w);
    } else {
      LateGetsCloser(rules, s, w);
    }
    WorkOfUpdate(s.workers, w, Step(rules, s, move).workers[w]);
  }

  lemma {:induction false} WorkOfBegun(workers: seq<Worker>)
    ensures Work(workers) <= 20 * |workers|
  {
    if workers == [] {
    } else {
      WorkOfBegun(workers[1..]);
    }
  }

  lemma {:induction false} WorkOfSpawn(workers: seq<Worker>, job: Job)
    ensures Work(workers + [NewWorker(job)]) == Work(workers) + 20
  {
    if workers == [] {
      assert workers + [NewWorker(job)] == [NewWorker(job)];
    } else {
      assert (workers + [NewWorker(job)])[1..] == workers[1..] + [NewWorker(job)];
      WorkOfSpawn(workers[1..], job);
    }
  }

  function WorkerMoves(moves: seq<Move>): nat {
    if moves == [] then 0 else (if IsWorkerMove(moves[0]) then 1 else 0) + WorkerMoves(moves[1..])
  }

  function Spawns(moves: seq<Move>): nat {
    if moves == [] then 0 else (if moves[0].Spawn? then 1 else 0) + Spawns(moves[1..])
  }

  lemma StepBalance(rules: Rules, s: State, move: Move)
    requires Enabled(rules, s, move)
    ensures WorkerMoves([move]) + Work(Step(rules, s, move).workers) <= Work(s.workers) + 20 * Spawns([move])
  {
    if IsWorkerMove(move) {
      StepUsesWork(rules, s, move);
    } else if move.Spawn? {
      WorkOfSpawn(s.workers, move.job);
    }
  }

  /** Over every run, with time passing, rows rewritten and crashes anywhere in it, each worker takes at
      most twenty steps: what the workers do is paid for by the work there was and by new requests. */
  lemma {:induction false} WorkersTerminate(rules: Rules, s: State, moves: seq<Move>)
    requires Runs(rules, s, moves)
    ensures WorkerMoves(moves) + Work(Exec(rules, s, moves).workers) <= Work(s.workers) + 20 * Spawns(moves)
    ensures WorkerMoves(moves) <= 20 * (|s.workers| + Spawns(moves))
    decreases |moves|
  {
    WorkOfBegun(s.workers);
    if moves == [] {
    } else {
      StepBalance(rules, s, moves[0]);
      WorkersTerminate(rules, Step(rules, s, moves[0]), moves[1..]);
    }
  }

  // ---------------------------------------------------------------- a stop can always complete

  lemma RunCons(rules: Rules, s: State, move: Move, rest: seq<Move>)
    requires Enabled(rules, s, move) && Runs(rules, Step(rules, s, move), rest)
    ensures Runs(rules, s, [move] + rest)
    ensures Exec(rules, s, [move] + rest) == Exec(rules, Step(rules, s, move), rest)
  {
  }

  lemma {:induction false} RunAppend(rules: Rules, s: State, first: seq<Move>, second: seq<Move>)
    requires Runs(rules, s, first) && Runs(rules, Exec(rules, s, first), second)
    ensures Runs(rules, s, first + second)
    ensures Exec(rules, s, first + second) == Exec(rules, Exec(rules, s, first), second)
    decreases |first|
  {
    if first == [] {
      assert first + second == second;
    } else {
      assert first + second == [first[0]] + (first[1..] + second);
      RunAppend(rules, Step(rules, s, first[0]), first[1..], second);
      RunCons(rules, s, first[0], first[1..] + second);
    }
  }

  /** Workers that hold no lock in `s` are as they were. */
  ghost predicate BystandersKept(s: State, t: State) {
    && |t.workers| == |s.workers|
    && (forall v: nat | v < |s.workers| && !HoldsWrite(s.workers[v].pc) && !HoldsFence(s.workers[v].pc) ::
          t.workers[v] == s.workers[v])
  }

  /** By their own steps alone the holders of the two locks let go of both, and nobody else moves. */
  lemma LocksCanBeFreed(rules: Rules, s: State) returns (moves: seq<Move>)
    requires Inv(rules, s)
    ensures Runs(rules, s, moves) && (forall m <- moves :: IsOwnStep(m))
    ensures var t := Exec(rules, s, moves);
      Inv(rules, t) && t.fenceLock.None? && t.writeLock.None? && BystandersKept(s, t)
    decreases Work(s.workers)
  {
    if s.fenceLock.None? && s.writeLock.None? {
      moves := [];
    } else {
      var move: Move;
      if s.writeLock.Some? {
        move := WriterCanStep(rules, s);
      } else {
        FenceHolderCanStep(rules, s);
        move := Advance(s.fenceLock.value);
      }
      var t := Step(rules, s, move);
      StepUsesWork(rules, s, move);
      StepKeepsInv(rules, s, move);
      NewHoldersWereHolders(rules, s, move);
      var rest := LocksCanBeFreed(rules, t);
      RunCons(rules, s, move, rest);
      moves := [move] + rest;
    }
  }

  lemma NewHoldersWereHolders(rules: Rules, s: State, move: Move)
    requires Inv(rules, s) && Enabled(rules, s, move) && IsOwnStep(move)
    requires s.writeLock == Some(move.worker) || s.fenceLock == Some(move.worker)
    ensures var t := Step(rules, s, move);
      forall v: nat | v < |s.workers| && !HoldsWrite(s.workers[v].pc) && !HoldsFence(s.workers[v].pc) ::
        v < |t.workers| && t.workers[v] == s.workers[v] && !HoldsWrite(t.workers[v].pc) && !HoldsFence(t.workers[v].pc)
  {
    StepUsesWork(rules, s, move);
  }

  lemma StopTakesThreeSteps(rules: Rules, s: State, w: nat)
    requires Inv(rules, s) && s.fenceLock.None? && s.writeLock.None?
    requires Valid(s, w) && s.workers[w].pc.Begin? && s.workers[w].job.StopJob?
    ensures Runs(rules, s, [Advance(w), Advance(w), Advance(w)])
    ensures var t := Exec(rules, s, [Advance(w), Advance(w), Advance(w)]);
      && t.stopped && t.store.stop && t.workers == s.workers[w := s.workers[w].(pc := Finished)]
  {
    var t1 := Step(rules, s, Advance(w));
    assert t1 == BeginStep(s, w);
    var t2 := Step(rules, t1, Advance(w));
    assert t2 == TakeWrite(t1, w, StopWriting);
    var t3 := Step(rules, t2, Advance(w));
    assert t3 == StopStep(t2, w);
    assert t3.workers == s.workers[w := s.workers[w].(pc := Finished)];
    RunCons(rules, t2, Advance(w), []);
    RunCons(rules, t1, Advance(w), [Advance(w)]);
    RunCons(rules, s, Advance(w), [Advance(w), Advance(w)]);
    assert [Advance(w)] + [] == [Advance(w)];
    assert [Advance(w)] + [Advance(w)] == [Advance(w), Advance(w)];
    assert [Advance(w)] + [Advance(w), Advance(w)] == [Advance(w), Advance(w), Advance(w)];
  }

  /** From any reachable state a waiting stop can commit without any dispatch returning: every
      dispatch in flight is still in flight when the stop is done. */
  lemma StopCompletesDuringDispatches(rules: Rules, s: State, w: nat) returns (moves: seq<Move>)
    requires Inv(rules, s)
    requires Valid(s, w) && s.workers[w].pc.Begin? && s.workers[w].job.StopJob?
    ensures Runs(rules, s, moves) && (forall m <- moves :: IsOwnStep(m))
    ensures var t := Exec(rules, s, moves);
      && t.stopped && t.store.stop
      && |t.workers| == |s.workers| && t.workers[w].pc.Finished?
      && (forall v: nat | v < |s.workers| && s.workers[v].pc.Dispatching? :: t.workers[v] == s.workers[v])
  {
    var first := LocksCanBeFreed(rules, s);
    var mid := Exec(rules, s, first);
    assert mid.workers[w] == s.workers[w];
    StopTakesThreeSteps(rules, mid, w);
    RunAppend(rules, s, first, [Advance(w), Advance(w), Advance(w)]);
    moves := first + [Advance(w), Advance(w), Advance(w)];
  }

  // ---------------------------------------------------------------- what each path leaves behind

  lemma RunOne(rules: Rules, s: State, move: Move)
    requires Enabled(rules, s, move)
    ensures Runs(rules, s, [move]) && Exec(rules, s, [move]) == Step(rules, s, move)
  {
    RunCons(rules, s, move, []);
    assert [move] + [] == [move];
  }

  lemma RunTwo(rules: Rules, s: State, first: Move, second: Move)
    requires Enabled(rules, s, first) && Enabled(rules, Step(rules, s, first), second)
    ensures Runs(rules, s, [first, second])
    ensures Exec(rules, s, [first, second]) == Step(rules, Step(rules, s, first), second)
  {
    RunOne(rules, Step(rules, s, first), second);
    RunCons(rules, s, first, [second]);
    assert [first] + [second] == [first, second];
  }

  /** A clear that holds both locks first commits, with the flag still as it was, and then lowers it. */
  lemma ClearCommitsThenLowers(rules: Rules, s: State, w: nat)
    requires Valid(s, w) && s.workers[w].pc.ClearWriting?
    ensures CanAdvance(s, w) && AdvanceStep(rules, s, w).stopped == s.stopped && !AdvanceStep(rules, s, w).store.stop
    ensures Runs(rules, s, [Advance(w), Advance(w)])
    ensures var t := Exec(rules, s, [Advance(w), Advance(w)]);
      && !t.stopped && t.store == s.store.(stop := false) && t.fenceLock.None? && t.writeLock.None?
      && t.workers == s.workers[w := s.workers[w].(pc := Finished)]
  {
    RunTwo(rules, s, Advance(w), Advance(w));
  }

  /** A clear that nothing interrupts takes the stop row and the flag down. */
  lemma ClearTakesFourSteps(rules: Rules, s: State, w: nat)
    requires s.fenceLock.None? && s.writeLock.None?
    requires Valid(s, w) && s.workers[w].pc.Begin? && s.workers[w].job.ClearJob?
    ensures var moves := [Advance(w), Advance(w)] + [Advance(w), Advance(w)];
      && Runs(rules, s, moves)
      && var t := Exec(rules, s, moves);
         !t.stopped && t.store == s.store.(stop := false) && t.fenceLock.None? && t.writeLock.None?
  {
    RunTwo(rules, s, Advance(w), Advance(w));
    var t := Exec(rules, s, [Advance(w), Advance(w)]);
    assert t == TakeWrite(BeginStep(s, w), w, ClearWriting);
    ClearCommitsThenLowers(rules, t, w);
    RunAppend(rules, s, [Advance(w), Advance(w)], [Advance(w), Advance(w)]);
  }

  lemma OutcomeIsRecorded(rules: Rules, s: State, w: nat)
    requires s.writeLock.None? && Valid(s, w) && s.workers[w].pc.AwaitPersist?
    requires HasParser(s.store, s.workers[w].actionId)
    ensures Runs(rules, s, [Advance(w), Advance(w)])
    ensures Exec(rules, s, [Advance(w), Advance(w)]) == PersistStep(TakeWrite(s, w, Persisting), w)
  {
    RunTwo(rules, s, Advance(w), Advance(w));
  }

  lemma PersistRecords(s: State, w: nat)
    requires Valid(s, w) && s.workers[w].actionId in s.store.actions
    ensures var t := PersistStep(TakeWrite(s, w, Persisting), w); var a := s.workers[w].actionId;
      && Valid(t, w) && t.workers[w].pc.Finished? && t.writeLock.None?
      && a in t.store.actions && t.store.actions[a].status == s.workers[w].outcome
      && t.store.results == s.store.results + multiset{ResultRow(a, s.workers[w].outcome)}
      && t.store.audit == s.store.audit + multiset{ActionFinished(a, s.workers[w].outcome)}
  {
  }

  lemma OutcomeIsLost(rules: Rules, s: State, w: nat)
    requires Owners(s) && s.writeLock.None? && Valid(s, w) && s.workers[w].pc.AwaitPersist?
    requires !HasParser(s.store, s.workers[w].actionId)
    ensures Enabled(rules, s, Advance(w)) && Step(rules, s, Advance(w)) == MoveTo(s, w, Finished)
    ensures Abandoned(MoveTo(s, w, Finished), s.workers[w].actionId)
  {
    assert OwnerOk(s.store, s.workers[w]);
  }

  /** With the database free, a run that waits to record its outcome records exactly that, if its action
      row has a registered name; under any other name its next step ends it with nothing recorded. */
  lemma OutcomeIsStored(rules: Rules, s: State, w: nat)
    requires Inv(rules, s) && s.writeLock.None? && Valid(s, w) && s.workers[w].pc.AwaitPersist?
    ensures s.workers[w].actionId in s.store.actions
    ensures IsRegistered(s.store.actions[s.workers[w].actionId].name) ==>
      && Runs(rules, s, [Advance(w), Advance(w)])
      && var t := Exec(rules, s, [Advance(w), Advance(w)]); var a := s.workers[w].actionId;
      && Valid(t, w) && t.workers[w].pc.Finished? && t.writeLock.None?
      && a in t.store.actions && t.store.actions[a].status == s.workers[w].outcome
      && t.store.results == s.store.results + multiset{ResultRow(a, s.workers[w].outcome)}
      && t.store.audit == s.store.audit + multiset{ActionFinished(a, s.workers[w].outcome)}
    ensures !IsRegistered(s.store.actions[s.workers[w].actionId].name) ==>
      && Runs(rules, s, [Advance(w)])
      && var t := Exec(rules, s, [Advance(w)]);
      && Valid(t, w) && t.workers[w].pc.Finished? && t.store == s.store && Abandoned(t, s.workers[w].actionId)
  {
    assert OwnerOk(s.store, s.workers[w]);
    if HasParser(s.store, s.workers[w].actionId) {
      OutcomeIsRecorded(rules, s, w);
      PersistRecords(s, w);
    } else {
      OutcomeIsLost(rules, s, w);
      RunOne(rules, s, Advance(w));
    }
  }

  /** Renames one action row and changes nothing else. */
  function Rename(store: Store, actionId: Id, name: string): Move
    requires actionId in store.actions
  {
    Tamper(store.sessions, store.targets, store.proposals, store.policies,
           map[actionId := (name, store.actions[actionId].arguments)])
  }

  /** What an action renamed during its dispatch leaves: a finished worker and an action nobody owns. */
  ghost predicate LostAfterDispatch(s: State, t: State, w: nat) {
    && w < |s.workers| == |t.workers| && t.workers[w].pc.Finished? && Abandoned(t, s.workers[w].actionId)
    && t.dispatches == s.dispatches && t.store.results == s.store.results && t.store.audit == s.store.audit
  }

  lemma RenamedStepsAreLost(rules: Rules, s: State, w: nat, name: string, status: ActionStatus)
    requires Owners(s) && s.writeLock.None? && Valid(s, w) && s.workers[w].pc.Dispatching?
    requires s.workers[w].actionId in s.store.actions
    requires !IsRegistered(name) && status in {Completed, Failed, TimedOut}
    ensures var rename := Rename(s.store, s.workers[w].actionId, name);
      && Enabled(rules, s, rename)
      && var t := Step(rules, s, rename);
      && Runs(rules, t, [Returned(w, status), Advance(w)])
      && LostAfterDispatch(s, Exec(rules, t, [Returned(w, status), Advance(w)]), w)
  {
    assert OwnerOk(s.store, s.workers[w]);
    var t := Step(rules, s, Rename(s.store, s.workers[w].actionId, name));
    var u := ReturnStep(t, w, status);
    assert Owners(u);
    OutcomeIsLost(rules, u, w);
    RunTwo(rules, t, Returned(w, status), Advance(w));
  }

  /** This is reached: an action renamed while it is dispatched ends its run with the dispatch made and
      no outcome recorded, and whatever happens afterwards it stays running. */
  lemma RenamedDispatchIsLost(rules: Rules, s: State, w: nat, name: string, status: ActionStatus, later: seq<Move>)
    requires Inv(rules, s) && s.writeLock.None? && Valid(s, w) && s.workers[w].pc.Dispatching?
    requires !IsRegistered(name) && status in {Completed, Failed, TimedOut}
    ensures s.workers[w].actionId in s.store.actions
    ensures var moves := [Rename(s.store, s.workers[w].actionId, name)] + [Returned(w, status), Advance(w)];
      && Runs(rules, s, moves)
      && var t := Exec(rules, s, moves);
      && LostAfterDispatch(s, t, w)
      && (Runs(rules, t, later) ==>
            var u := Exec(rules, t, later); var a := s.workers[w].actionId;
            Abandoned(u, a) && ResultCount(u.store, a) == 0 == FinishCount(u.store, a))
  {
    assert OwnerOk(s.store, s.workers[w]);
    var rename := Rename(s.store, s.workers[w].actionId, name);
    RenamedStepsAreLost(rules, s, w, name, status);
    RunCons(rules, s, rename, [Returned(w, status), Advance(w)]);
    var moves := [rename] + [Returned(w, status), Advance(w)];
    RunKeepsInv(rules, s, moves);
    if Runs(rules, Exec(rules, s, moves), later) {
      AbandonedStaysRunning(rules, Exec(rules, s, moves), later, s.workers[w].actionId);
    }
  }
}
