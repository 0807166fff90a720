/** Desktop hosts of one user: start, stop, the guard waiter and the named mutex between hosts.

    Each host serves under the mutex and must not give it up while its server, its protected workers
    or their children are alive.  A host's own threads are interleaved, and so are the hosts. */
module DesktopHosts {
  import opened Wrappers
  import Operations

  datatype Handle = NoHandle | Owner | Duplicate

  datatype Server = NoServer | ServerAlive | ServerDead

  datatype StartPc = NotStarted | LosingDuplicate | Acquired | AppReady | Launched | StartFailed | StartOver

  /** One call of `stop`, or the guard waiter, which begins at DrainServer. */
  datatype ActorPc =
    | Mark | CloseDoors | Join | WaitIdle | EnterRelease | Disposing | Closing | Retain
    | DrainServer | DrainIdle | Returned

  /** `threadField` is whether the host still refers to a server thread; `storage` whether its
      database engine is open.  `acquired` and `releases` count history. */
  datatype Host = Host(
    ops: Operations.State,
    start: StartPc, stopping: bool, serving: bool,
    server: Server, threadField: bool,
    handle: Handle, storage: bool,
    actors: seq<ActorPc>, lock: Option<nat>, guard: Option<nat>,
    acquired: nat, releases: nat)

  const FRESH := Host(Operations.INITIAL, NotStarted, false, false, NoServer, false, NoHandle, false,
                      [], None, None, 0, 0)

  datatype Move =
    | CreateMutex(fails: bool)
    | CloseDuplicate
    | MakeApp(fails: bool)
    | Launch(fails: bool)
    | Healthy
    | StartFails
    | StartStops
    | CallStop
    | ServerExits
    | Operate(op: Operations.Move)
    | Act(actor: nat, interrupted: bool)
    | ProcessDies

  predicate ServerRuns(host: Host) {
    host.threadField && host.server.ServerAlive?
  }

  predicate CanRelease(host: Host) {
    !ServerRuns(host) && Operations.Idle(host.ops)
  }

  predicate CanAct(host: Host, a: nat, interrupted: bool) {
    && a < |host.actors|
    && match host.actors[a]
       case Mark | CloseDoors | Disposing | Closing => true
       case Join => interrupted || !ServerRuns(host)
       case WaitIdle => interrupted || Operations.Idle(host.ops)
       case EnterRelease | Retain => host.lock.None?
       case DrainServer => !host.server.ServerAlive?
       case DrainIdle => Operations.Idle(host.ops)
       case Returned => false
  }

  ghost predicate Enabled(host: Host, move: Move) {
    match move
    case CreateMutex(_) => host.start.NotStarted? && !host.stopping && host.actors == []
    case CloseDuplicate => host.start.LosingDuplicate?
    case MakeApp(_) => host.start.Acquired?
    case Launch(_) => host.start.AppReady?
    case Healthy => host.start.Launched? && host.server.ServerAlive?
    case StartFails => host.start.Launched?
    case StartStops => host.start.StartFailed?
    case CallStop => host.start.NotStarted? || host.start.StartOver?
    case ServerExits => host.server.ServerAlive?
    case Operate(op) => Operations.Enabled(host.ops, op)
    case Act(a, interrupted) => CanAct(host, a, interrupted)
    case ProcessDies => true
  }

  /** Where a thread goes next.  Interruptions of the two waits, timeouts among them, all lead to the
      guard waiter. */
  function NextPc(host: Host, a: nat, interrupted: bool): ActorPc
    requires a < |host.actors|
  {
    match host.actors[a]
    case Mark => CloseDoors
    case CloseDoors => Join
    case Join => if interrupted then Retain else WaitIdle
    case WaitIdle => if interrupted then Retain else EnterRelease
    case EnterRelease => if CanRelease(host) then Disposing else Returned
    case Disposing => Closing
    case DrainServer => DrainIdle
    case DrainIdle => EnterRelease
    case _ => Returned
  }

  predicate StartsWaiter(host: Host, a: nat)
    requires a < |host.actors|
  {
    host.actors[a] == Retain && host.guard.None? && host.handle.Owner?
  }

  /** What a thread does to the host besides moving on. */
  ghost function Affected(host: Host, a: nat, interrupted: bool): Host
    requires a < |host.actors|
  {
    match host.actors[a]
    case Mark => host.(stopping := true, serving := false)
    case CloseDoors => host.(ops := Operations.Step(host.ops, Operations.CloseAdmission))
    case Join => if interrupted then host else host.(threadField := false)
    case EnterRelease => if CanRelease(host) then host.(lock := Some(a)) else host
    case Disposing => host.(storage := false)
    case Closing =>
      if host.handle.Owner? then host.(lock := None, handle := NoHandle, releases := host.releases + 1)
      else host.(lock := None)
    case Retain => if StartsWaiter(host, a) then host.(guard := Some(|host.actors|)) else host
    case _ => host
  }

  ghost function ActStep(host: Host, a: nat, interrupted: bool): Host
    requires CanAct(host, a, interrupted)
  {
    var moved := host.actors[a := NextPc(host, a, interrupted)];
    Affected(host, a, interrupted).(actors := if StartsWaiter(host, a) then moved + [DrainServer] else moved)
  }

  /** `taken` tells whether any process has the named mutex open. */
  ghost function HostStep(host: Host, move: Move, taken: bool): Host
    requires Enabled(host, move)
  {
    match move
    case CreateMutex(fails) =>
      if fails then host.(start := StartFailed)
      else if taken then host.(start := LosingDuplicate, handle := Duplicate)
      else host.(start := Acquired, handle := Owner, acquired := host.acquired + 1)
    case CloseDuplicate => host.(start := StartFailed, handle := NoHandle)
    case MakeApp(fails) => if fails then host.(start := StartFailed) else host.(start := AppReady, storage := true)
    case Launch(fails) =>
      if fails then host.(start := StartFailed)
      else host.(start := Launched, server := ServerAlive, threadField := true)
    case Healthy => host.(start := StartOver, serving := true)
    case StartFails => host.(start := StartFailed)
    case StartStops => host.(start := StartOver, actors := host.actors + [Mark])
    case CallStop => host.(actors := host.actors + [Mark])
    case ServerExits => host.(server := ServerDead)
    case Operate(op) => host.(ops := Operations.Step(host.ops, op))
    case Act(a, interrupted) => ActStep(host, a, interrupted)
    case ProcessDies =>
      FRESH.(start := StartOver, stopping := true, acquired := host.acquired, releases := host.releases,
             ops := Operations.INITIAL.(accepting := false))
  }

  // ---------------------------------------------------------------- all hosts

  predicate AnyHandle(hosts: seq<Host>) {
    exists h :: 0 <= h < |hosts| && !hosts[h].handle.NoHandle?
  }

  datatype HostMove = HostMove(host: nat, move: Move)

  ghost predicate AllEnabled(hosts: seq<Host>, m: HostMove) {
    m.host < |hosts| && Enabled(hosts[m.host], m.move)
  }

  ghost function Step(hosts: seq<Host>, m: HostMove): seq<Host>
    requires AllEnabled(hosts, m)
  {
    hosts[m.host := HostStep(hosts[m.host], m.move, AnyHandle(hosts))]
  }

  ghost predicate Runs(hosts: seq<Host>, moves: seq<HostMove>)
    decreases |moves|
  {
    moves == [] || (AllEnabled(hosts, moves[0]) && Runs(Step(hosts, moves[0]), moves[1..]))
  }

  ghost function Exec(hosts: seq<Host>, moves: seq<HostMove>): seq<Host>
    requires Runs(hosts, moves)
    decreases |moves|
  {
    if moves == [] then hosts else Exec(Step(hosts, moves[0]), moves[1..])
  }

  predicate AllFresh(hosts: seq<Host>) {
    forall h | 0 <= h < |hosts| :: hosts[h] == FRESH
  }

  // ---------------------------------------------------------------- the invariant of one host

  predicate ActorOk(host: Host, a: nat)
    requires a < |host.actors|
  {
    var pc := host.actors[a];
    && (!pc.Mark? ==> host.stopping)
    && (!pc.Mark? && !pc.CloseDoors? ==> !host.ops.accepting)
    && (pc in {WaitIdle, EnterRelease, Disposing, Closing, DrainIdle} ==> !host.server.ServerAlive?)
    && (pc in {EnterRelease, Disposing, Closing} ==> Operations.Idle(host.ops))
    && (pc == Closing ==> !host.storage)
    && (pc in {Disposing, Closing} <==> host.lock == Some(a))
    && (pc == Returned ==> !host.handle.Owner? || host.guard.Some?)
  }

  ghost predicate ActorsOk(host: Host) {
    forall a: nat | a < |host.actors| :: ActorOk(host, a)
  }

  predicate GuardOk(host: Host) {
    && (host.lock.Some? ==> host.lock.value < |host.actors|)
    && (host.guard.Some? ==>
          && host.guard.value < |host.actors|
          && host.actors[host.guard.value] in {DrainServer, DrainIdle, EnterRelease, Disposing, Closing, Returned}
          && (host.actors[host.guard.value] == Returned ==> !host.handle.Owner?))
  }

  predicate StartOk(host: Host) {
    && (host.start.LosingDuplicate? <==> host.handle.Duplicate?)
    && (host.actors != [] ==> host.start.NotStarted? || host.start.StartOver?)
    && (host.start in {Acquired, AppReady, Launched} ==> host.handle.Owner?)
    && (host.start in {NotStarted, LosingDuplicate} ==> !host.handle.Owner? && host.server.NoServer?)
    && (host.start in {Acquired, AppReady} ==> host.server.NoServer?)
    && (host.start.NotStarted? ==> host.acquired == 0 && host.releases == 0)
    && (host.server.ServerAlive? ==> host.handle.Owner? && host.threadField)
    && (host.storage ==> host.handle.Owner?)
  }

  /** Counts, and what a release left behind for good. */
  predicate ReleaseOk(host: Host) {
    && host.acquired <= 1
    && host.releases + (if host.handle.Owner? then 1 else 0) <= host.acquired
    && (host.releases > 0 ==>
          && !host.server.ServerAlive? && !host.storage && !host.ops.accepting && Operations.Idle(host.ops))
  }

  ghost predicate HostInv(host: Host) {
    ActorsOk(host) && GuardOk(host) && StartOk(host) && ReleaseOk(host) && Operations.Inv(host.ops)
  }

  lemma MutexKeepsInv(host: Host, move: Move, taken: bool)
    requires HostInv(host) && Enabled(host, move) && (move.CreateMutex? || move.CloseDuplicate?)
    ensures HostInv(HostStep(host, move, taken))
  {
    assert host.actors == [] || host.start.LosingDuplicate?;
  }

  lemma ServeKeepsInv(host: Host, move: Move, taken: bool)
    requires HostInv(host) && Enabled(host, move)
    requires move.MakeApp? || move.Launch? || move.Healthy? || move.StartFails?
    ensures HostInv(HostStep(host, move, taken))
  {
    assert host.actors == [];
  }

  lemma CallKeepsInv(host: Host, move: Move, taken: bool)
    requires HostInv(host) && Enabled(host, move) && (move.StartStops? || move.CallStop? || move.ServerExits?)
    ensures HostInv(HostStep(host, move, taken))
  {
    var after := HostStep(host, move, taken);
    forall a: nat | a < |after.actors| ensures ActorOk(after, a) {
      assert a < |host.actors| ==> ActorOk(host, a);
    }
  }

  lemma StartKeepsInv(host: Host, move: Move, taken: bool)
    requires HostInv(host) && Enabled(host, move)
    requires !move.Act? && !move.Operate? && !move.ProcessDies?
    ensures HostInv(HostStep(host, move, taken))
  {
    match move {
      case CreateMutex(_) | CloseDuplicate => MutexKeepsInv(host, move, taken);
      case MakeApp(_) | Launch(_) | Healthy | StartFails => ServeKeepsInv(host, move, taken);
      case _ => CallKeepsInv(host, move, taken);
    }
  }

  lemma OperateKeepsInv(host: Host, op: Operations.Move)
    requires HostInv(host) && Operations.Enabled(host.ops, op)
    ensures HostInv(host.(ops := Operations.Step(host.ops, op)))
  {
    var after := host.(ops := Operations.Step(host.ops, op));
    Operations.StepKeepsInv(host.ops, op);
    if !host.ops.accepting {
      Operations.StaysClosed(host.ops, [op]);
      if Operations.Idle(host.ops) {
        Operations.IdleStepStays(host.ops, op);
      }
    }
    forall a: nat | a < |after.actors| ensures ActorOk(after, a) {
      assert ActorOk(host, a);
    }
  }

  lemma StoppingKeepsInv(host: Host, a: nat, interrupted: bool)
    requires HostInv(host) && CanAct(host, a, interrupted) && host.actors[a] in {Mark, CloseDoors}
    ensures HostInv(ActStep(host, a, interrupted))
  {
    var after := ActStep(host, a, interrupted);
    assert ActorOk(host, a);
    Operations.StepKeepsInv(host.ops, Operations.CloseAdmission);
    forall b: nat | b < |after.actors| ensures ActorOk(after, b) {
      assert ActorOk(host, b);
    }
  }

  lemma WaitingKeepsInv(host: Host, a: nat, interrupted: bool)
    requires HostInv(host) && CanAct(host, a, interrupted)
    requires host.actors[a] in {Join, WaitIdle, DrainServer, DrainIdle}
    ensures HostInv(ActStep(host, a, interrupted))
  {
    var after := ActStep(host, a, interrupted);
    assert ActorOk(host, a);
    forall b: nat | b < |after.actors| ensures ActorOk(after, b) {
      assert ActorOk(host, b);
    }
  }

  lemma ReleasingKeepsInv(host: Host, a: nat, interrupted: bool)
    requires HostInv(host) && CanAct(host, a, interrupted)
    requires host.actors[a] in {EnterRelease, Disposing, Closing}
    ensures HostInv(ActStep(host, a, interrupted))
    ensures host.actors[a] == EnterRelease ==> ActStep(host, a, interrupted).actors[a] == Disposing
  {
    var after := ActStep(host, a, interrupted);
    assert ActorOk(host, a);
    forall b: nat | b < |after.actors| ensures ActorOk(after, b) {
      assert ActorOk(host, b);
    }
  }

  lemma RetainKeepsInv(host: Host, a: nat, interrupted: bool)
    requires HostInv(host) && CanAct(host, a, interrupted) && host.actors[a] == Retain
    ensures HostInv(ActStep(host, a, interrupted))
  {
    var after := ActStep(host, a, interrupted);
    assert ActorOk(host, a);
    forall b: nat | b < |after.actors| ensures ActorOk(after, b) {
      assert b < |host.actors| ==> ActorOk(host, b);
    }
  }

  lemma ActKeepsInv(host: Host, a: nat, interrupted: bool)
    requires HostInv(host) && CanAct(host, a, interrupted)
    ensures HostInv(ActStep(host, a, interrupted))
  {
    match host.actors[a] {
      case Mark | CloseDoors => StoppingKeepsInv(host, a, interrupted);
      case Join | WaitIdle | DrainServer | DrainIdle => WaitingKeepsInv(host, a, interrupted);
      case EnterRelease | Disposing | Closing => ReleasingKeepsInv(host, a, interrupted);
      case Retain => RetainKeepsInv(host, a, interrupted);
      case Returned =>
    }
  }

  lemma HostStepKeepsInv(host: Host, move: Move, taken: bool)
    requires HostInv(host) && Enabled(host, move)
    ensures HostInv(HostStep(host, move, taken))
  {
    match move {
      case Act(a, interrupted) => ActKeepsInv(host, a, interrupted);
      case Operate(op) => OperateKeepsInv(host, op);
      case ProcessDies => Operations.InitialInv();
      case _ => StartKeepsInv(host, move, taken);
    }
  }

  // ---------------------------------------------------------------- the invariant of all hosts

  ghost predicate OneOwner(hosts: seq<Host>) {
    forall h, i | 0 <= h < |hosts| && 0 <= i < |hosts| && hosts[h].handle.Owner? && hosts[i].handle.Owner? :: h == i
  }

  ghost predicate Inv(hosts: seq<Host>) {
    OneOwner(hosts) && (forall h | 0 <= h < |hosts| :: HostInv(hosts[h]))
  }

  lemma ActsNeverAcquire(host: Host, a: nat, interrupted: bool)
    requires CanAct(host, a, interrupted) && ActStep(host, a, interrupted).handle.Owner?
    ensures host.handle.Owner?
  {
  }

  lemma OnlyCreateOwns(host: Host, move: Move, taken: bool)
    requires Enabled(host, move) && HostStep(host, move, taken).handle.Owner?
    ensures host.handle.Owner? || !taken
  {
    if move.Act? {
      ActsNeverAcquire(host, move.actor, move.interrupted);
    }
  }

  lemma StepKeepsInv(hosts: seq<Host>, m: HostMove)
    requires Inv(hosts) && AllEnabled(hosts, m)
    ensures Inv(Step(hosts, m))
  {
    var after := Step(hosts, m);
    HostStepKeepsInv(hosts[m.host], m.move, AnyHandle(hosts));
    if after[m.host].handle.Owner? {
      OnlyCreateOwns(hosts[m.host], m.move, AnyHandle(hosts));
    }
  }

  lemma {:induction false} RunKeepsInv(hosts: seq<Host>, moves: seq<HostMove>)
    requires Inv(hosts) && Runs(hosts, moves)
    ensures Inv(Exec(hosts, moves))
    decreases |moves|
  {
    if moves == [] {
    } else {
      StepKeepsInv(hosts, moves[0]);
      RunKeepsInv(Step(hosts, moves[0]), moves[1..]);
    }
  }

  lemma FreshInv(hosts: seq<Host>)
    requires AllFresh(hosts)
    ensures Inv(hosts)
  {
  }

  // ---------------------------------------------------------------- the theorems

  /** Over any number of hosts and any interleaving, duplicates held by losers included: one owner at
      most, storage open under one owner at most, a live server only under the mutex. */
  lemma OneOwnerAtATime(hosts: seq<Host>, moves: seq<HostMove>)
    requires AllFresh(hosts) && Runs(hosts, moves)
    ensures var after := Exec(hosts, moves);
      && OneOwner(after)
      && (forall h, i | 0 <= h < |after| && 0 <= i < |after| && after[h].storage && after[i].storage :: h == i)
      && (forall h | 0 <= h < |after| :: after[h].server.ServerAlive? ==> after[h].handle.Owner?)
  {
    FreshInv(hosts);
    RunKeepsInv(hosts, moves);
    var after := Exec(hosts, moves);
    forall h | 0 <= h < |after| ensures HostInv(after[h]) {
    }
  }

  /** A host gives up the mutex at most once, and from then on its server is dead, its engine is
      disposed, and no protected worker and no child that has not exited is left. */
  lemma ReleaseIsSafeForever(hosts: seq<Host>, moves: seq<HostMove>)
    requires AllFresh(hosts) && Runs(hosts, moves)
    ensures var after := Exec(hosts, moves);
      forall h | 0 <= h < |after| ::
        && after[h].releases <= 1
        && (after[h].releases == 1 ==>
              && !after[h].handle.Owner? && !after[h].server.ServerAlive? && !after[h].storage
              && after[h].ops.workers == map[]
              && (forall o <- after[h].ops.registered :: o in after[h].ops.heap && after[h].ops.heap[o].exited))
  {
    FreshInv(hosts);
    RunKeepsInv(hosts, moves);
    var after := Exec(hosts, moves);
    forall h | 0 <= h < |after| ensures HostInv(after[h]) {
    }
  }

  // ---------------------------------------------------------------- an early stop is made good

  /** Runs of one host whose process does not die. */
  ghost predicate HostRuns(host: Host, moves: seq<Move>)
    decreases |moves|
  {
    moves == [] || (
      && !moves[0].ProcessDies? && Enabled(host, moves[0])
      && HostRuns(HostStep(host, moves[0], false), moves[1..]))
  }

  ghost function HostExec(host: Host, moves: seq<Move>): Host
    requires HostRuns(host, moves)
    decreases |moves|
  {
    if moves == [] then host else HostExec(HostStep(host, moves[0], false), moves[1..])
  }

  /** How many steps an actor can still take, those of a waiter it may start included. */
  function StepsLeft(pc: ActorPc): nat {
    match pc
    case Mark => 10
    case CloseDoors => 9
    case Join => 8
    case WaitIdle => 7
    case Retain => 6
    case DrainServer => 5
    case DrainIdle => 4
    case EnterRelease => 3
    case Disposing => 2
    case Closing => 1
    case Returned => 0
  }

  function AllSteps(actors: seq<ActorPc>): nat {
    if actors == [] then 0 else StepsLeft(actors[0]) + AllSteps(actors[1..])
  }

  lemma {:induction false} StepsOfUpdate(actors: seq<ActorPc>, a: nat, pc: ActorPc)
    requires a < |actors|
    ensures AllSteps(actors[a := pc]) == AllSteps(actors) - StepsLeft(actors[a]) + StepsLeft(pc)
  {
    if a == 0 {
      assert actors[a := pc][1..] == actors[1..];
    } else {
      assert actors[a := pc][1..] == actors[1..][a - 1 := pc];
      StepsOfUpdate(actors[1..], a - 1, pc);
    }
  }

  lemma {:induction false} StepsOfNew(actors: seq<ActorPc>, pc: ActorPc)
    ensures AllSteps(actors + [pc]) == AllSteps(actors) + StepsLeft(pc)
  {
    if actors == [] {
      assert actors + [pc] == [pc];
    } else {
      assert (actors + [pc])[1..] == actors[1..] + [pc];
      StepsOfNew(actors[1..], pc);
    }
  }

  /** Server, workers and children are gone, the doors are closed, and some thread was told to stop. */
  ghost predicate Down(host: Host) {
    && HostInv(host)
    && host.start.StartOver? && host.actors != []
    && !host.server.ServerAlive? && !host.ops.accepting && Operations.Idle(host.ops)
  }

  function Holding(host: Host): nat {
    if host.handle.Owner? then 1 else 0
  }

  lemma NextPcIsCloser(host: Host, a: nat, interrupted: bool)
    requires CanAct(host, a, interrupted)
    ensures StepsLeft(NextPc(host, a, interrupted)) + (if StartsWaiter(host, a) then StepsLeft(DrainServer) else 0)
      < StepsLeft(host.actors[a])
  {
  }

  lemma ActUsesSteps(host: Host, a: nat, interrupted: bool)
    requires CanAct(host, a, interrupted)
    ensures AllSteps(ActStep(host, a, interrupted).actors) < AllSteps(host.actors)
  {
    var pc := NextPc(host, a, interrupted);
    NextPcIsCloser(host, a, interrupted);
    StepsOfUpdate(host.actors, a, pc);
    StepsOfNew(host.actors[a := pc], DrainServer);
  }

  /** What no act changes, but for the doors. */
  lemma ActFrame(host: Host, a: nat, interrupted: bool)
    requires CanAct(host, a, interrupted)
    ensures var after := Affected(host, a, interrupted);
      && after.start == host.start && after.server == host.server
      && after.ops == (if host.actors[a] == CloseDoors then Operations.Step(host.ops, Operations.CloseAdmission)
                       else host.ops)
  {
  }

  /** An act gives the mutex up exactly when it counts a release. */
  lemma ActCountsReleases(host: Host, a: nat, interrupted: bool)
    requires CanAct(host, a, interrupted)
    ensures var after := Affected(host, a, interrupted);
      after.releases + Holding(after) == host.releases + Holding(host)
  {
  }

  lemma ActKeepsDown(host: Host, a: nat, interrupted: bool)
    requires Down(host) && CanAct(host, a, interrupted)
    ensures var after := ActStep(host, a, interrupted);
      Down(after) && after.releases + Holding(after) == host.releases + Holding(host)
  {
    ActKeepsInv(host, a, interrupted);
    ActFrame(host, a, interrupted);
    ActCountsReleases(host, a, interrupted);
    Operations.IdleStepStays(host.ops, Operations.CloseAdmission);
  }

  lemma OtherKeepsDown(host: Host, move: Move)
    requires Down(host) && Enabled(host, move) && !move.Act? && !move.ProcessDies?
    ensures move.CallStop? || move.Operate?
    ensures var after := HostStep(host, move, false);
      && Down(after) && after.releases == host.releases && after.handle == host.handle
      && (move.Operate? ==> after.actors == host.actors)
      && (move.CallStop? ==> after.actors == host.actors + [Mark])
  {
    HostStepKeepsInv(host, move, false);
    if move.Operate? {
      Operations.IdleStepStays(host.ops, move.op);
    }
  }

  function Acts(moves: seq<Move>): nat {
    if moves == [] then 0 else (if moves[0].Act? then 1 else 0) + Acts(moves[1..])
  }

  function Calls(moves: seq<Move>): nat {
    if moves == [] then 0 else (if moves[0].CallStop? then 1 else 0) + Calls(moves[1..])
  }

  lemma {:induction false} DownRuns(host: Host, moves: seq<Move>)
    requires Down(host) && HostRuns(host, moves)
    ensures var after := HostExec(host, moves);
      && Down(after)
      && after.releases + Holding(after) == host.releases + Holding(host)
      && Acts(moves) + AllSteps(after.actors) <= AllSteps(host.actors) + 10 * Calls(moves)
    decreases |moves|
  {
    if moves == [] {
    } else {
      var next := HostStep(host, moves[0], false);
      if moves[0].Act? {
        ActKeepsDown(host, moves[0].actor, moves[0].interrupted);
        ActUsesSteps(host, moves[0].actor, moves[0].interrupted);
      } else {
        OtherKeepsDown(host, moves[0]);
        if moves[0].CallStop? {
          StepsOfNew(host.actors, Mark);
        }
      }
      DownRuns(next, moves[1..]);
    }
  }

  predicate AllReturned(host: Host) {
    forall a | 0 <= a < |host.actors| :: host.actors[a] == Returned
  }

  /** Nobody is ever stuck: while some thread has not returned, some thread can act. */
  lemma SomeActorCanAct(host: Host) returns (a: nat)
    requires Down(host) && !AllReturned(host)
    ensures CanAct(host, a, false)
  {
    if host.lock.Some? {
      a := host.lock.value;
    } else {
      a :| a < |host.actors| && host.actors[a] != Returned;
    }
    assert ActorOk(host, a);
  }

  lemma AllReturnedOwnsNothing(host: Host)
    requires Down(host) && AllReturned(host)
    ensures host.handle.NoHandle?
  {
    assert ActorOk(host, 0);
  }

  predicate StoppedEarly(host: Host) {
    exists a :: 0 <= a < |host.actors| && host.actors[a] == Returned
  }

  lemma StoppedEarlyIsDown(host: Host)
    requires HostInv(host) && host.handle.Owner? && StoppedEarly(host)
    requires !host.server.ServerAlive? && Operations.Idle(host.ops)
    ensures Down(host) && host.releases == 0
  {
    var b :| 0 <= b < |host.actors| && host.actors[b] == Returned;
    assert ActorOk(host, b);
  }

  /** After a stop that returned early, once the server, the workers and the children are gone: on every
      schedule, further stop calls and interruptions included, the threads take a bounded number of
      steps, some thread can act until all have returned, and by then the mutex has been released,
      exactly once. */
  lemma EarlyStopStillReleases(host: Host, moves: seq<Move>)
    requires HostInv(host) && host.handle.Owner? && StoppedEarly(host)
    requires !host.server.ServerAlive? && Operations.Idle(host.ops)
    requires HostRuns(host, moves)
    ensures Acts(moves) <= AllSteps(host.actors) + 10 * Calls(moves)
    ensures var after := HostExec(host, moves);
      && after.releases + Holding(after) == 1
      && ((exists a: nat :: a < |after.actors| && CanAct(after, a, false))
          || (AllReturned(after) && after.handle.NoHandle? && after.releases == 1))
  {
    StoppedEarlyIsDown(host);
    DownRuns(host, moves);
    var after := HostExec(host, moves);
    if AllReturned(after) {
      AllReturnedOwnsNothing(after);
    } else {
      var a := SomeActorCanAct(after);
    }
  }

  // ---------------------------------------------------------------- what start and stop need from their caller

  /** The first thread acting `n` times. */
  function Repeat(n: nat): seq<Move> {
    if n == 0 then [] else [Act(0, false)] + Repeat(n - 1)
  }

  lemma OneAct(host: Host, n: nat)
    requires CanAct(host, 0, false) && HostRuns(ActStep(host, 0, false), Repeat(n))
    ensures HostRuns(host, Repeat(n + 1))
    ensures HostExec(host, Repeat(n + 1)) == HostExec(ActStep(host, 0, false), Repeat(n))
  {
    assert Repeat(n + 1)[1..] == Repeat(n);
  }

  lemma FreeHostIsReleased(host: Host)
    requires host.actors == [EnterRelease] && CanRelease(host) && host.lock.None? && host.handle.Owner?
    ensures HostRuns(host, Repeat(3))
    ensures var after := HostExec(host, Repeat(3));
      after.handle.NoHandle? && after.start == host.start && after.server == host.server
  {
    var h1 := ActStep(host, 0, false);
    var h2 := ActStep(h1, 0, false);
    assert h2.actors == [Closing];
    OneAct(h2, 0);
    OneAct(h1, 1);
    OneAct(host, 2);
  }

  /** The acts of a stop that finds no server up to the release. */
  lemma StopReachesRelease(host: Host)
    requires host.actors == [Mark] && host.server.NoServer? && Operations.Idle(host.ops)
    requires host.lock.None? && host.handle.Owner?
    ensures HostRuns(host, Repeat(7))
    ensures var after := HostExec(host, Repeat(7));
      after.handle.NoHandle? && after.start == host.start && after.server == host.server
  {
    var h1 := ActStep(host, 0, false);
    var h2 := ActStep(h1, 0, false);
    assert h2.actors == [Join] && !ServerRuns(h2);
    var h3 := ActStep(h2, 0, false);
    var h4 := ActStep(h3, 0, false);
    assert h4.actors == [EnterRelease];
    FreeHostIsReleased(h4);
    OneAct(h3, 3);
    OneAct(h2, 4);
    OneAct(h1, 5);
    OneAct(host, 6);
  }

  /** A stop that ran in the middle of a start, before the server runs, would release the mutex under a
      server that is about to run.  `CreateMutex` and `CallStop` exclude this, as the one caller of both
      does. */
  lemma StopInsideStartLosesTheGuard(host: Host)
    requires host.start in {Acquired, AppReady} && host.handle.Owner? && host.server.NoServer?
    requires host.actors == [Mark] && host.lock.None? && Operations.Idle(host.ops)
    ensures HostRuns(host, Repeat(7))
    ensures var after := HostExec(host, Repeat(7));
      var ready := if after.start.Acquired? then HostStep(after, MakeApp(false), false) else after;
      && after.handle.NoHandle? && (after.start.Acquired? ==> Enabled(after, MakeApp(false)))
      && Enabled(ready, Launch(false))
      && var launched := HostStep(ready, Launch(false), false);
      && launched.server.ServerAlive? && launched.handle.NoHandle?
  {
    StopReachesRelease(host);
  }

  /** The server runs under the mutex and no thread of the host is past waiting for it. */
  predicate ServesUnderGuard(host: Host) {
    && host.start in {Launched, StartFailed, StartOver}
    && host.server.ServerAlive? && host.threadField && host.handle.Owner?
    && forall a | 0 <= a < |host.actors| :: host.actors[a] in {Mark, CloseDoors, Join, Retain, DrainServer, Returned}
  }

  lemma LiveServerKeepsGuardOnce(host: Host, move: Move)
    requires ServesUnderGuard(host) && Enabled(host, move) && !move.ServerExits? && !move.ProcessDies?
    ensures var after := HostStep(host, move, false); ServesUnderGuard(after) && after.releases == host.releases
  {
  }

  /** Once the server runs, a stop inside the start is harmless: on every schedule of stop calls, failures,
      interruptions and waiters the mutex is kept for as long as the server is alive. */
  lemma {:induction false} LiveServerKeepsGuard(host: Host, moves: seq<Move>)
    requires ServesUnderGuard(host) && HostRuns(host, moves) && ServerExits !in moves
    ensures var after := HostExec(host, moves); ServesUnderGuard(after) && after.releases == host.releases
    decreases |moves|
  {
    if moves == [] {
    } else {
      LiveServerKeepsGuardOnce(host, moves[0]);
      LiveServerKeepsGuard(HostStep(host, moves[0], false), moves[1..]);
    }
  }
}
