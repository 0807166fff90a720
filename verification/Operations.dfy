/** Protected workers and the child processes they own, as interleaved steps.

    Children are kept in a table keyed by object address, and an address may be given to a new
    object once nothing refers to the old one.  A reaper works on a snapshot taken earlier, so
    several reapers can hold entries that are no longer in the table. */
module Operations {
  import opened Wrappers

  type Address = nat
  type Obj = nat

  /** A child process object: where it lives and whether the process has exited. */
  datatype Child = Child(address: Address, exited: bool)

  datatype Reap = NoReap | Reaping(rest: seq<Obj>) | FoundExited(obj: Obj, rest: seq<Obj>)

  /** `holding` is the process object a worker has in a local variable. */
  datatype Thread = Thread(holding: Option<Obj>, reap: Reap)

  /** `workers` maps each thread inside an operation to its cancel flag, if it has one;
      `registered` records every object ever owned. */
  datatype State = State(
    accepting: bool,
    workers: map<nat, Option<bool>>,
    children: map<Address, Obj>,
    heap: map<Obj, Child>,
    threads: seq<Thread>,
    registered: set<Obj>)

  predicate Idle(s: State) {
    s.workers == map[] && s.children == map[]
  }

  // ---------------------------------------------------------------- references

  predicate Refers(thread: Thread, o: Obj) {
    || thread.holding == Some(o)
    || (thread.reap.Reaping? && o in thread.reap.rest)
    || (thread.reap.FoundExited? && (thread.reap.obj == o || o in thread.reap.rest))
  }

  /** Something still refers to the object, so its address is not free. */
  ghost predicate Alive(s: State, o: Obj) {
    o in s.children.Values || exists t: nat :: t < |s.threads| && Refers(s.threads[t], o)
  }

  // ---------------------------------------------------------------- steps

  datatype Move =
    | NewThread
    | Enter(thread: nat, cancellable: bool)
    | Leave(thread: nat)
    | Popen(thread: nat, obj: Obj, address: Address)
    | Own(thread: nat)
    | Drop(thread: nat)
    | Snapshot(thread: nat, items: seq<Obj>)
    | Poll(thread: nat, uncertain: bool)
    | Pop(thread: nat)
    | EndReap(thread: nat)
    | ChildExits(obj: Obj)
    | CloseAdmission

  ghost predicate Enabled(s: State, move: Move) {
    match move
    case NewThread => true
    case Enter(t, _) => t < |s.threads| && t !in s.workers && s.accepting && s.threads[t].holding.None?
    case Leave(t) => t < |s.threads| && t in s.workers && s.threads[t].holding.None?
    case Popen(t, o, address) =>
      && t < |s.threads| && t in s.workers && s.threads[t].holding.None? && o !in s.heap
      && (forall p <- s.heap :: Alive(s, p) ==> s.heap[p].address != address)
    case Own(t) =>
      t < |s.threads| && t in s.workers && s.threads[t].holding.Some? && s.threads[t].holding.value in s.heap
    case Drop(t) => t < |s.threads| && s.threads[t].holding.Some? && s.threads[t].holding.value in s.registered
    case Snapshot(t, items) =>
      t < |s.threads| && s.threads[t].reap.NoReap? && (forall o :: o in items <==> o in s.children.Values)
    case Poll(t, _) =>
      && t < |s.threads| && s.threads[t].reap.Reaping? && s.threads[t].reap.rest != []
      && s.threads[t].reap.rest[0] in s.heap
    case Pop(t) => t < |s.threads| && s.threads[t].reap.FoundExited? && s.threads[t].reap.obj in s.heap
    case EndReap(t) => t < |s.threads| && s.threads[t].reap == Reaping([])
    case ChildExits(o) => o in s.heap
    case CloseAdmission => true
  }

  function Put(s: State, t: nat, thread: Thread): State
    requires t < |s.threads|
  {
    s.(threads := s.threads[t := thread])
  }

  /** Raises every cancel flag there is. */
  function CancelAll(workers: map<nat, Option<bool>>): map<nat, Option<bool>> {
    map t | t in workers :: if workers[t].Some? then Some(true) else None
  }

  ghost function Step(s: State, move: Move): State
    requires Enabled(s, move)
  {
    match move
    case NewThread => s.(threads := s.threads + [Thread(None, NoReap)])
    case Enter(t, cancellable) => s.(workers := s.workers[t := if cancellable then Some(false) else None])
    case Leave(t) => s.(workers := s.workers - {t})
    case Popen(t, o, address) =>
      Put(s, t, s.threads[t].(holding := Some(o))).(heap := s.heap[o := Child(address, false)])
    case Own(t) =>
      var o := s.threads[t].holding.value;
      s.(children := s.children[s.heap[o].address := o], registered := s.registered + {o})
    case Drop(t) => Put(s, t, s.threads[t].(holding := None))
    case Snapshot(t, items) => Put(s, t, s.threads[t].(reap := Reaping(items)))
    case Poll(t, uncertain) =>
      var rest := s.threads[t].reap.rest;
      Put(s, t, s.threads[t].(reap :=
        if s.heap[rest[0]].exited && !uncertain then FoundExited(rest[0], rest[1..]) else Reaping(rest[1..])))
    case Pop(t) =>
      var reap := s.threads[t].reap;
      Put(s, t, s.threads[t].(reap := Reaping(reap.rest))).(children := s.children - {s.heap[reap.obj].address})
    case EndReap(t) => Put(s, t, s.threads[t].(reap := NoReap))
    case ChildExits(o) => s.(heap := s.heap[o := s.heap[o].(exited := true)])
    case CloseAdmission => s.(accepting := false, workers := CancelAll(s.workers))
  }

  ghost predicate Runs(s: State, moves: seq<Move>)
    decreases |moves|
  {
    moves == [] || (Enabled(s, moves[0]) && Runs(Step(s, moves[0]), moves[1..]))
  }

  ghost function Exec(s: State, moves: seq<Move>): State
    requires Runs(s, moves)
    decreases |moves|
  {
    if moves == [] then s else Exec(Step(s, moves[0]), moves[1..])
  }

  const INITIAL := State(true, map[], map[], map[], [], {})

  // ---------------------------------------------------------------- the invariant

  /** Two objects that are both referred to never share an address. */
  ghost predicate AddressesDistinct(s: State) {
    forall o, p | o in s.heap && p in s.heap && Alive(s, o) && Alive(s, p)
      && s.heap[o].address == s.heap[p].address :: o == p
  }

  ghost predicate TableOk(s: State) {
    forall k <- s.children :: s.children[k] in s.heap && s.heap[s.children[k]].address == k
  }

  ghost predicate ThreadOk(s: State, thread: Thread) {
    && (forall o | Refers(thread, o) :: o in s.heap)
    && (thread.reap.FoundExited? ==> thread.reap.obj in s.heap && s.heap[thread.reap.obj].exited)
  }

  ghost predicate ThreadsOk(s: State) {
    forall t: nat | t < |s.threads| :: ThreadOk(s, s.threads[t])
  }

  /** Every owned child that has not exited is still in the table, under its own address. */
  ghost predicate NothingForgotten(s: State) {
    && s.registered <= s.heap.Keys
    && forall o <- s.registered ::
      !s.heap[o].exited ==> s.heap[o].address in s.children && s.children[s.heap[o].address] == o
  }

  ghost predicate WorkersOk(s: State) {
    && (forall t <- s.workers :: t < |s.threads|)
    && (!s.accepting ==> forall t <- s.workers :: s.workers[t] != Some(false))
  }

  ghost predicate Inv(s: State) {
    AddressesDistinct(s) && TableOk(s) && ThreadsOk(s) && NothingForgotten(s) && WorkersOk(s)
  }

  lemma InitialInv()
    ensures Inv(INITIAL)
  {
  }

  /** Stepping thread `t` cannot revive an object nothing referred to. */
  lemma AliveBackwards(s: State, s': State, t: nat, o: Obj)
    requires t < |s.threads| == |s'.threads|
    requires forall u: nat | u < |s.threads| && u != t :: s'.threads[u] == s.threads[u]
    requires Alive(s', o) && s'.children.Values <= s.children.Values
    requires Refers(s'.threads[t], o) ==> Alive(s, o)
    ensures Alive(s, o)
  {
  }

  /** The key step: the entry a reaper removes is the child it found exited, however old its snapshot,
      because the snapshot kept that child's address from being reused. */
  lemma PopRemovesWhatExited(s: State, t: nat)
    requires Inv(s) && Enabled(s, Pop(t))
    ensures var o := s.threads[t].reap.obj;
      s.heap[o].exited && (s.heap[o].address in s.children ==> s.children[s.heap[o].address] == o)
  {
  }

  lemma PopKeepsInv(s: State, t: nat)
    requires Inv(s) && Enabled(s, Pop(t))
    ensures Inv(Step(s, Pop(t)))
  {
  }

  lemma OwnKeepsInv(s: State, t: nat)
    requires Inv(s) && Enabled(s, Own(t))
    ensures Inv(Step(s, Own(t)))
  {
  }

  lemma PopenKeepsInv(s: State, t: nat, o: Obj, address: Address)
    requires Inv(s) && Enabled(s, Popen(t, o, address))
    ensures Inv(Step(s, Popen(t, o, address)))
  {
  }

  lemma ReaperKeepsInv(s: State, move: Move)
    requires Inv(s) && Enabled(s, move) && (move.Snapshot? || move.Poll? || move.EndReap? || move.Drop?)
    ensures Inv(Step(s, move))
  {
    var s' := Step(s, move);
    var t := move.thread;
    forall o | Alive(s', o) ensures Alive(s, o) {
      assert Refers(s'.threads[t], o) ==> Refers(s.threads[t], o) || o in s.children.Values;
      AliveBackwards(s, s', t, o);
    }
    forall u: nat | u < |s'.threads| ensures ThreadOk(s', s'.threads[u]) {
      assert ThreadOk(s, s.threads[u]);
      forall o | Refers(s'.threads[u], o) ensures o in s'.heap {
        assert Refers(s.threads[u], o) || o in s.children.Values;
      }
    }
  }

  lemma ExitKeepsInv(s: State, o: Obj)
    requires Inv(s) && o in s.heap
    ensures Inv(Step(s, ChildExits(o)))
  {
  }

  lemma AdmissionKeepsInv(s: State, move: Move)
    requires Inv(s) && Enabled(s, move)
    requires move.NewThread? || move.Enter? || move.Leave? || move.CloseAdmission?
    ensures Inv(Step(s, move))
  {
  }

  lemma StepKeepsInv(s: State, move: Move)
    requires Inv(s) && Enabled(s, move)
    ensures Inv(Step(s, move))
  {
    match move {
      case Pop(t) => PopKeepsInv(s, t);
      case Own(t) => OwnKeepsInv(s, t);
      case Popen(t, o, address) => PopenKeepsInv(s, t, o, address);
      case Snapshot(_, _) | Poll(_, _) | EndReap(_) | Drop(_) => ReaperKeepsInv(s, move);
      case ChildExits(o) => ExitKeepsInv(s, o);
      case _ => AdmissionKeepsInv(s, move);
    }
  }

  lemma {:induction false} RunKeepsInv(s: State, moves: seq<Move>)
    requires Inv(s) && Runs(s, moves)
    ensures Inv(Exec(s, moves))
    decreases |moves|
  {
    if moves == [] {
    } else {
      StepKeepsInv(s, moves[0]);
      RunKeepsInv(Step(s, moves[0]), moves[1..]);
    }
  }

  /** Any number of concurrent reapers, under any reuse of addresses, never forget a child that has
      not exited; so an empty table means that every child ever owned has exited. */
  lemma ReapersNeverForget(moves: seq<Move>)
    requires Runs(INITIAL, moves)
    ensures var s := Exec(INITIAL, moves);
      && NothingForgotten(s)
      && (s.children == map[] ==> forall o <- s.registered :: s.heap[o].exited)
  {
    InitialInv();
    RunKeepsInv(INITIAL, moves);
  }

  // ---------------------------------------------------------------- once idle, always idle

  lemma IdleStepStays(s: State, move: Move)
    requires !s.accepting && Idle(s) && Enabled(s, move)
    ensures !Step(s, move).accepting && Idle(Step(s, move))
  {
  }

  /** With admission closed, a moment without workers and children is followed only by such moments. */
  lemma {:induction false} IdleForever(s: State, moves: seq<Move>)
    requires !s.accepting && Idle(s) && Runs(s, moves)
    ensures !Exec(s, moves).accepting && Idle(Exec(s, moves))
    decreases |moves|
  {
    if moves == [] {
    } else {
      IdleStepStays(s, moves[0]);
      IdleForever(Step(s, moves[0]), moves[1..]);
    }
  }

  /** Admission must be closed for that: with it open an idle moment need not last. */
  lemma IdleIsNotStableWhileAccepting()
    ensures exists s: State, move: Move :: s.accepting && Idle(s) && Inv(s) && Enabled(s, move) && !Idle(Step(s, move))
  {
    var s := INITIAL.(threads := [Thread(None, NoReap)]);
    var move := Enter(0, false);
    assert Enabled(s, move) && 0 in Step(s, move).workers;
    assert Inv(s);
  }

  /** Closing admission cancels every cancellable worker that is inside. */
  lemma CloseCancelsEveryWorker(s: State, moves: seq<Move>)
    requires Inv(s) && !s.accepting && Runs(s, moves)
    ensures forall t <- Exec(s, moves).workers :: Exec(s, moves).workers[t] != Some(false)
  {
    RunKeepsInv(s, moves);
    StaysClosed(s, moves);
  }

  lemma {:induction false} StaysClosed(s: State, moves: seq<Move>)
    requires !s.accepting && Runs(s, moves)
    ensures !Exec(s, moves).accepting
    decreases |moves|
  {
    if moves == [] {
    } else {
      StaysClosed(Step(s, moves[0]), moves[1..]);
    }
  }

  predicate Leaves(moves: seq<Move>, t: nat) {
    exists m :: m in moves && m == Leave(t)
  }

  lemma {:induction false} CancellableStays(s: State, moves: seq<Move>, t: nat)
    requires Runs(s, moves) && !Leaves(moves, t) && t in s.workers && s.workers[t].Some?
    ensures t in Exec(s, moves).workers && Exec(s, moves).workers[t].Some?
    decreases |moves|
  {
    if moves == [] {
    } else {
      assert moves[0] in moves && forall m <- moves[1..] :: m in moves;
      CancellableStays(Step(s, moves[0]), moves[1..], t);
    }
  }

  lemma OtherFlagIsSet(flag: Option<bool>)
    requires flag.Some? && flag != Some(false)
    ensures flag == Some(true)
  {
    match flag {
      case Some(raised) => assert raised;
    }
  }

  /** A worker that asked for a cancel flag has one until it leaves, and once admission is closed it is set. */
  lemma CancellableIsCancelled(s: State, t: nat, moves: seq<Move>)
    requires Inv(s) && Enabled(s, Enter(t, true)) && Runs(Step(s, Enter(t, true)), moves) && !Leaves(moves, t)
    ensures var last := Exec(Step(s, Enter(t, true)), moves);
      t in last.workers && (!last.accepting ==> last.workers[t] == Some(true))
  {
    var entered := Step(s, Enter(t, true));
    StepKeepsInv(s, Enter(t, true));
    CancellableStays(entered, moves, t);
    RunKeepsInv(entered, moves);
    var last := Exec(entered, moves);
    assert WorkersOk(last);
    if !last.accepting {
      OtherFlagIsSet(last.workers[t]);
    }
  }
}
