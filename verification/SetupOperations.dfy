/** Setup repairs: one at a time, cancelled by component, and cut short by a shutdown. */
module SetupOperations {
  import opened Wrappers
  import opened ProtectedOperationsTracker

  datatype Component = Ollama | Model | Wsl | Kali

  datatype Stage = Stage(status: string, code: string)

  const CANCELLED := Stage("needs_attention", "CANCELLED")

  /** What a repair reports, given how its work ended and whether its cancel won. */
  function Reported(stage: Stage, won: bool): Stage {
    if won && stage.status == "ready" then CANCELLED else stage
  }

  /** The controller's two fields.  `E` identifies events. */
  datatype Controller<E> = Controller(locked: bool, active: Option<(Component, E)>)

  function Locked<E>(c: Controller<E>): Controller<E> {
    c.(locked := true)
  }

  function Activated<E>(c: Controller<E>, component: Component, event: E): Controller<E> {
    c.(active := Some((component, event)))
  }

  /** Only the active operation itself is finished; anything else is left as it is. */
  function Completed<E(==)>(c: Controller<E>, component: Component, event: E): Controller<E> {
    if c.active == Some((component, event)) then Controller(false, None) else c
  }

  predicate CancelHits<E>(c: Controller<E>, component: Component) {
    c.active.Some? && c.active.value.0 == component
  }

  // ---------------------------------------------------------------- the controller as an object

  class SetupOperationController {
    var locked: bool
    var active: Option<(Component, Event)>

    ghost function Contents(): Controller<Event>
      reads this
    {
      Controller(locked, active)
    }

    constructor ()
      ensures Contents() == Controller(false, None)
    {
      locked, active := false, None;
    }

    method Begin(component: Component, event: Event) returns (begun: bool)
      modifies this
      ensures begun == !old(locked)
      ensures begun ==> locked && active == Some((component, event))
      ensures begun ==> Contents() == Activated(Locked(old(Contents())), component, event)
      ensures !begun ==> Contents() == old(Contents())
    {
      if locked {
        return false;
      }
      locked := true;
      active := Some((component, event));
      return true;
    }

    method Complete(component: Component, event: Event) returns (won: bool)
      modifies this
      ensures won == event.isSet
      ensures Contents() == Completed(old(Contents()), component, event)
      ensures old(active) == Some((component, event)) ==> !locked && active.None?
      ensures old(active) != Some((component, event)) ==> locked == old(locked) && active == old(active)
    {
      if active != Some((component, event)) {
        return event.isSet;
      }
      won := event.isSet;
      active := None;
      locked := false;
    }

    method Cancel(component: Component) returns (hit: bool)
      modifies if active.Some? then {active.value.1} else {}
      ensures Contents() == old(Contents())
      ensures hit == CancelHits(Contents(), component)
      ensures hit <==> active.Some? && active.value.0 == component
      ensures active.Some? ==> active.value.1.isSet == (hit || old(active.value.1.isSet))
    {
      if active.None? || active.value.0 != component {
        return false;
      }
      active.value.1.isSet := true;
      return true;
    }
  }

  // ---------------------------------------------------------------- interleaved repairs

  datatype Pc =
    | Inside
    | HoldsLock
    | Working
    | WorkDone(raw: Stage)
    | Refused
    | Over(raw: Stage, reported: Stage, won: bool)

  /** One repair request.  Its number is its generation, and names its event.  `cancelHit` and
      `shutdownHit` record a successful cancel, and a shutdown before it completed. */
  datatype Repair = Repair(
    component: Component, pc: Pc, registered: bool, isSet: bool, cancelHit: bool, shutdownHit: bool)

  datatype State = State(control: Controller<nat>, accepting: bool, repairs: seq<Repair>)

  const INITIAL := State(Controller(false, None), true, [])

  datatype Move =
    | Enter(component: Component)
    | TryLock(repair: nat)
    | Activate(repair: nat)
    | EndWork(repair: nat, raw: Stage)
    | Complete(repair: nat)
    | CompleteAgain(repair: nat)
    | Leave(repair: nat)
    | Cancel(component: Component)
    | CloseAdmission

  predicate Enabled(s: State, move: Move) {
    match move
    case Enter(_) => s.accepting
    case TryLock(g) => g < |s.repairs| && s.repairs[g].pc.Inside?
    case Activate(g) => g < |s.repairs| && s.repairs[g].pc.HoldsLock?
    case EndWork(g, _) => g < |s.repairs| && s.repairs[g].pc.Working?
    case Complete(g) => g < |s.repairs| && s.repairs[g].pc.WorkDone?
    case CompleteAgain(g) => g < |s.repairs| && s.repairs[g].pc.Over?
    case Leave(g) => g < |s.repairs| && s.repairs[g].registered && (s.repairs[g].pc.Over? || s.repairs[g].pc.Refused?)
    case Cancel(_) => true
    case CloseAdmission => true
  }

  function Put(s: State, g: nat, pc: Pc): State
    requires g < |s.repairs|
  {
    s.(repairs := s.repairs[g := s.repairs[g].(pc := pc)])
  }

  /** A shutdown sets the event of every repair that is inside a protected operation. */
  function Signalled(r: Repair): Repair {
    if r.registered then r.(isSet := true, shutdownHit := r.shutdownHit || !r.pc.Over?) else r
  }

  function Step(s: State, move: Move): State
    requires Enabled(s, move)
  {
    match move
    case Enter(component) => s.(repairs := s.repairs + [Repair(component, Inside, true, false, false, false)])
    case TryLock(g) =>
      if s.control.locked then Put(s, g, Refused) else Put(s, g, HoldsLock).(control := Locked(s.control))
    case Activate(g) => Put(s, g, Working).(control := Activated(s.control, s.repairs[g].component, g))
    case EndWork(g, raw) => Put(s, g, WorkDone(raw))
    case Complete(g) =>
      var won := s.repairs[g].isSet;
      Put(s, g, Over(s.repairs[g].pc.raw, Reported(s.repairs[g].pc.raw, won), won))
        .(control := Completed(s.control, s.repairs[g].component, g))
    case CompleteAgain(g) => s.(control := Completed(s.control, s.repairs[g].component, g))
    case Leave(g) => s.(repairs := s.repairs[g := s.repairs[g].(registered := false)])
    case Cancel(component) =>
      if CancelHits(s.control, component) && s.control.active.value.1 < |s.repairs| then
        var g := s.control.active.value.1;
        s.(repairs := s.repairs[g := s.repairs[g].(isSet := true, cancelHit := true)])
      else s
    case CloseAdmission =>
      s.(accepting := false, repairs := seq(|s.repairs|, i requires 0 <= i < |s.repairs| => Signalled(s.repairs[i])))
  }

  ghost predicate Runs(s: State, moves: seq<Move>)
    decreases |moves|
  {
    moves == [] || (Enabled(s, moves[0]) && Runs(Step(s, moves[0]), moves[1..]))
  }

  ghost function Exec(s: State, moves: seq<Move>): State
    requires Runs(s, moves)
    decreases |moves|
  {
    if moves == [] then s else Exec(Step(s, moves[0]), moves[1..])
  }

  // ---------------------------------------------------------------- the invariant

  predicate HasLock(pc: Pc) {
    pc.HoldsLock? || pc.Working? || pc.WorkDone?
  }

  predicate IsActive(pc: Pc) {
    pc.Working? || pc.WorkDone?
  }

  /** The lock has one holder, and the active entry is that holder from its activation on. */
  ghost predicate OneAtATime(s: State) {
    && (s.control.locked <==> exists g :: 0 <= g < |s.repairs| && HasLock(s.repairs[g].pc))
    && (forall g, h | 0 <= g < |s.repairs| && 0 <= h < |s.repairs|
          && HasLock(s.repairs[g].pc) && HasLock(s.repairs[h].pc) :: g == h)
    && (forall g: nat | g < |s.repairs| && IsActive(s.repairs[g].pc) ::
          s.control.active == Some((s.repairs[g].component, g)))
    && (s.control.active.Some? ==>
          var g := s.control.active.value.1; g < |s.repairs| && IsActive(s.repairs[g].pc))
  }

  predicate Hit(r: Repair) {
    r.cancelHit || r.shutdownHit
  }

  /** Only a repair that became ready although it was cancelled is reported as cancelled; every other one
      reports how its work ended, a failure that came with a cancel included. */
  predicate ReportsHonestly(pc: Pc)
    requires pc.Over?
  {
    if pc.raw.status == "ready" && pc.won then pc.reported == Stage("needs_attention", "CANCELLED")
    else pc.reported == pc.raw
  }

  predicate RepairOk(r: Repair) {
    && (!r.pc.Over? ==> (r.isSet <==> Hit(r)))
    && (r.pc.Over? ==> (r.pc.won <==> Hit(r)) && ReportsHonestly(r.pc))
  }

  ghost predicate Inv(s: State) {
    OneAtATime(s) && forall g | 0 <= g < |s.repairs| :: RepairOk(s.repairs[g])
  }

  lemma LockStepKeepsInv(s: State, move: Move)
    requires Inv(s) && Enabled(s, move) && (move.TryLock? || move.Activate? || move.EndWork?)
    ensures Inv(Step(s, move))
  {
    var t := Step(s, move);
    var g := move.repair;
    assert t.repairs[g].pc == Refused || HasLock(t.repairs[g].pc);
    if s.control.locked {
      var h :| 0 <= h < |s.repairs| && HasLock(s.repairs[h].pc);
      assert HasLock(t.repairs[h].pc);
    }
  }

  lemma CompleteKeepsInv(s: State, g: nat)
    requires Inv(s) && Enabled(s, Complete(g))
    ensures Inv(Step(s, Complete(g))) && !Step(s, Complete(g)).control.locked
  {
  }

  /** A completion that comes late neither frees the lock nor ends a later generation. */
  lemma LateCompleteChangesNothing(s: State, g: nat)
    requires Inv(s) && Enabled(s, CompleteAgain(g))
    ensures Step(s, CompleteAgain(g)) == s
  {
  }

  /** Steps that move no repair along leave the lock and the active entry right. */
  lemma OneAtATimeFromPcs(s: State, t: State)
    requires OneAtATime(s) && t.control == s.control && |s.repairs| <= |t.repairs|
    requires forall g | 0 <= g < |s.repairs| ::
      t.repairs[g].pc == s.repairs[g].pc && t.repairs[g].component == s.repairs[g].component
    requires forall g | |s.repairs| <= g < |t.repairs| :: t.repairs[g].pc.Inside?
    ensures OneAtATime(t)
  {
  }

  lemma OtherStepKeepsInv(s: State, move: Move)
    requires Inv(s) && Enabled(s, move)
    requires move.Enter? || move.Leave? || move.Cancel? || move.CloseAdmission?
    ensures Inv(Step(s, move))
  {
    var t := Step(s, move);
    OneAtATimeFromPcs(s, t);
    forall g | 0 <= g < |t.repairs| ensures RepairOk(t.repairs[g]) {
      assert g < |s.repairs| ==> RepairOk(s.repairs[g]);
    }
  }

  lemma StepKeepsInv(s: State, move: Move)
    requires Inv(s) && Enabled(s, move)
    ensures Inv(Step(s, move))
  {
    match move {
      case TryLock(_) | Activate(_) | EndWork(_, _) => LockStepKeepsInv(s, move);
      case Complete(g) => CompleteKeepsInv(s, g);
      case CompleteAgain(g) => LateCompleteChangesNothing(s, g);
      case _ => OtherStepKeepsInv(s, move);
    }
  }

  lemma {:induction false} RunKeepsInv(s: State, moves: seq<Move>)
    requires Inv(s) && Runs(s, moves)
    ensures Inv(Exec(s, moves))
    decreases |moves|
  {
    if moves == [] {
    } else {
      StepKeepsInv(s, moves[0]);
      RunKeepsInv(Step(s, moves[0]), moves[1..]);
    }
  }

  // ---------------------------------------------------------------- the theorems

  /** Over every interleaving: at most one repair is between its lock and its completion, only it can
      be cancelled, and each finished repair learned of a cancel exactly when it was itself cancelled,
      or a shutdown found it inside, before it completed; then it never reports ready, and it reports
      anything but how its work ended only in place of ready. */
  lemma RepairsAreExclusiveAndHonest(moves: seq<Move>)
    requires Runs(INITIAL, moves)
    ensures var s := Exec(INITIAL, moves);
      && (forall g, h | 0 <= g < |s.repairs| && 0 <= h < |s.repairs|
            && HasLock(s.repairs[g].pc) && HasLock(s.repairs[h].pc) :: g == h)
      && (forall g: nat | g < |s.repairs| && s.repairs[g].pc.Over? ::
            && (s.repairs[g].pc.won <==> s.repairs[g].cancelHit || s.repairs[g].shutdownHit)
            && ReportsHonestly(s.repairs[g].pc)
            && s.control.active != Some((s.repairs[g].component, g)))
  {
    assert Inv(INITIAL);
    RunKeepsInv(INITIAL, moves);
    var s := Exec(INITIAL, moves);
    forall g: nat | g < |s.repairs| && s.repairs[g].pc.Over? ensures RepairOk(s.repairs[g]) {
    }
  }

  lemma HitsStayOneStep(s: State, move: Move, g: nat)
    requires Enabled(s, move) && g < |s.repairs|
    ensures var t := Step(s, move);
      && g < |t.repairs|
      && (s.repairs[g].cancelHit ==> t.repairs[g].cancelHit)
      && (s.repairs[g].shutdownHit ==> t.repairs[g].shutdownHit)
  {
  }

  lemma {:induction false} HitsStay(s: State, moves: seq<Move>, g: nat)
    requires Runs(s, moves) && g < |s.repairs|
    ensures var t := Exec(s, moves);
      && g < |t.repairs|
      && (s.repairs[g].cancelHit ==> t.repairs[g].cancelHit)
      && (s.repairs[g].shutdownHit ==> t.repairs[g].shutdownHit)
    decreases |moves|
  {
    if moves == [] {
    } else {
      HitsStayOneStep(s, moves[0], g);
      HitsStay(Step(s, moves[0]), moves[1..], g);
    }
  }

  /** A cancel that answers yes belongs to the generation that is active at that moment: whenever that
      repair finishes, its completion says so and it does not report ready. */
  lemma CancelIsHonoured(s: State, component: Component, later: seq<Move>)
    requires Inv(s) && CancelHits(s.control, component) && Runs(Step(s, Cancel(component)), later)
    ensures var g := s.control.active.value.1; var t := Exec(Step(s, Cancel(component)), later);
      && g < |t.repairs|
      && (t.repairs[g].pc.Over? ==> t.repairs[g].pc.won && t.repairs[g].pc.reported.status != "ready")
  {
    var g := s.control.active.value.1;
    StepKeepsInv(s, Cancel(component));
    RunKeepsInv(Step(s, Cancel(component)), later);
    HitsStay(Step(s, Cancel(component)), later, g);
    assert RepairOk(Exec(Step(s, Cancel(component)), later).repairs[g]);
  }

  /** A shutdown that finds a repair inside and not finished suppresses ready in the same way. */
  lemma ShutdownIsHonoured(s: State, g: nat, later: seq<Move>)
    requires Inv(s) && g < |s.repairs| && s.repairs[g].registered && !s.repairs[g].pc.Over?
    requires Runs(Step(s, CloseAdmission), later)
    ensures var t := Exec(Step(s, CloseAdmission), later);
      && g < |t.repairs|
      && (t.repairs[g].pc.Over? ==> t.repairs[g].pc.won && t.repairs[g].pc.reported.status != "ready")
  {
    StepKeepsInv(s, CloseAdmission);
    RunKeepsInv(Step(s, CloseAdmission), later);
    HitsStay(Step(s, CloseAdmission), later, g);
    assert RepairOk(Exec(Step(s, CloseAdmission), later).repairs[g]);
  }

  /** Nobody cancels a repair that nobody cancelled: without a hit the report is what the work gave. */
  lemma UncancelledReportsItsWork(s: State, g: nat)
    requires Inv(s) && Enabled(s, Complete(g)) && !s.repairs[g].cancelHit && !s.repairs[g].shutdownHit
    ensures var t := Step(s, Complete(g));
      && t.repairs[g].pc == Over(s.repairs[g].pc.raw, s.repairs[g].pc.raw, false)
      && !t.control.locked && t.control.active.None?
  {
  }
}
