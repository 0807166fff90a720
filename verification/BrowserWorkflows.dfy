/** The two browser workflows: deciding on and running a loaded proposal, and the emergency stop
    that drives it.  Each state is one immutable record that is replaced at every step. */
module BrowserWorkflows {
  import opened Wrappers

  type Time = nat

  datatype Status = Idle | Pending | Approved | Rejected | Expired | RunOver | Failed

  /** `expiresAt` is None for a rejection. */
  datatype Receipt = Receipt(proposalId: string, approvalId: string, expiresAt: Option<Time>)

  datatype Proposal = Proposal(
    status: Status, busy: bool, executionAvailable: bool,
    stopActive: bool, stopConfirmedClear: bool,
    loaded: Option<string>, receipt: Option<Receipt>, generation: nat)

  const NO_PROPOSAL := Proposal(Idle, false, false, true, false, None, None, 0)

  predicate CurrentApproval(p: Proposal, now: Time) {
    && p.status == Approved && !p.busy && !p.stopActive && p.stopConfirmedClear
    && p.receipt.Some? && p.loaded.Some? && p.receipt.value.proposalId == p.loaded.value
    && p.receipt.value.expiresAt.Some? && p.receipt.value.expiresAt.value > now
  }

  function Load(p: Proposal, id: string, allowed: bool): Proposal {
    Proposal(if allowed then Pending else Rejected, false, false,
             p.stopActive, !p.stopActive && p.stopConfirmedClear, Some(id), None, p.generation + 1)
  }

  datatype Choice = Approve | Reject

  predicate CanDecide(p: Proposal, choice: Choice) {
    p.status == Pending && !p.busy && p.loaded.Some? && (choice == Approve ==> !p.stopActive)
  }

  /** A reply that reads as a receipt for the proposal asked about, or does not. */
  datatype DecisionReply = GoodReceipt(receipt: Receipt) | BadReply

  predicate IsCurrent(p: Proposal, generation: nat, id: string) {
    p.generation == generation && p.loaded == Some(id)
  }

  function TakeDecision(p: Proposal, generation: nat, id: string, reply: DecisionReply, now: Time): Proposal {
    if !IsCurrent(p, generation, id) then p
    else if reply.BadReply? || reply.receipt.proposalId != id then p.(status := Failed, busy := false)
    else
      var receipt := reply.receipt;
      var status := if receipt.expiresAt.None? then Rejected
                    else if receipt.expiresAt.value <= now then Expired else Approved;
      var next := p.(status := status, busy := false, receipt := Some(receipt));
      next.(executionAvailable := CurrentApproval(next, now))
  }

  function RefreshExpiration(p: Proposal, now: Time): Proposal {
    var expiresAt := if p.receipt.Some? then p.receipt.value.expiresAt else None;
    if p.status == Approved && expiresAt.Some? && expiresAt.value <= now
    then p.(status := Expired, executionAvailable := false) else p
  }

  /** What a run shows for confirmation. */
  datatype Confirmation = Confirmation(generation: nat, proposalId: string, approvalId: string, expiresAt: Time)

  predicate CanAsk(p: Proposal, now: Time) {
    CurrentApproval(p, now) && p.executionAvailable
  }

  function Ask(p: Proposal): Confirmation
    requires p.receipt.Some? && p.receipt.value.expiresAt.Some? && p.loaded.Some?
  {
    Confirmation(p.generation, p.loaded.value, p.receipt.value.approvalId, p.receipt.value.expiresAt.value)
  }

  /** Everything is looked at again once the user has confirmed. */
  predicate StillConfirmed(p: Proposal, c: Confirmation, now: Time) {
    CanAsk(p, now) && Ask(p) == c
  }

  function SendRun(p: Proposal): Proposal {
    p.(busy := true, executionAvailable := false)
  }

  /** The reply to a run is taken whatever is loaded by then. */
  function TakeRun(p: Proposal, good: bool): Proposal {
    p.(status := if good then RunOver else Failed, busy := false, executionAvailable := false)
  }

  function SetStop(p: Proposal, active: bool, confirmedClear: bool, now: Time): Proposal {
    var next := p.(stopActive := active, stopConfirmedClear := !active && confirmedClear);
    next.(executionAvailable := CurrentApproval(next, now))
  }

  // ---------------------------------------------------------------- the emergency stop

  datatype StopStatus = Checking | Clear | Active | Activating | Clearing | Unknown

  datatype Stop = Stop(active: bool, busy: bool, status: StopStatus)

  const UNCHECKED_STOP := Stop(true, false, Checking)

  datatype StopRequest = Refresh | Activate | ClearStop

  predicate CanRequest(s: Stop, request: StopRequest) {
    match request
    case Refresh => !s.busy
    case Activate => !s.busy && !s.active
    case ClearStop => !s.busy && s.active && s.status == Active
  }

  function Requested(s: Stop, request: StopRequest): Stop {
    match request
    case Refresh => Stop(true, true, Checking)
    case Activate => Stop(true, true, Activating)
    case ClearStop => s.(busy := true, status := Clearing)
  }

  /** `active` is what the backend answered, or None when there was no valid answer. */
  function Answered(request: StopRequest, active: Option<bool>): Stop {
    match request
    case Refresh =>
      if active.None? then Stop(true, false, Unknown)
      else Stop(active.value, false, if active.value then Active else Clear)
    case Activate => if active == Some(true) then Stop(true, false, Active) else Stop(true, false, Unknown)
    case ClearStop => if active == Some(false) then Stop(false, false, Clear) else Stop(true, false, Unknown)
  }

  // ---------------------------------------------------------------- the workflows as objects

  class ProposalWorkflow {
    var state: Proposal

    constructor ()
      ensures state == NO_PROPOSAL
    {
      state := NO_PROPOSAL;
    }

    method LoadRecommendation(id: string, allowed: bool)
      modifies this
      ensures state == Load(old(state), id, allowed)
      ensures state.generation == old(state.generation) + 1 && state.loaded == Some(id) && state.receipt.None?
      ensures !state.busy && !state.executionAvailable && (state.status == Pending <==> allowed)
      ensures forall now :: !CurrentApproval(state, now)
      ensures forall choice :: CanDecide(state, choice) <==> allowed && (choice == Approve ==> !old(state.stopActive))
    {
      var stopActive := state.stopActive;
      var confirmedClear := if stopActive then false else state.stopConfirmedClear;
      state := Proposal(if allowed then Pending else Rejected, false, false, stopActive, confirmedClear,
                        Some(id), None, state.generation + 1);
    }

    /** Up to the request; the answer comes to `DecisionArrives`. */
    method Decide(choice: Choice) returns (sent: bool)
      modifies this
      ensures sent == CanDecide(old(state), choice)
      ensures sent <==>
        && old(state).status == Pending && !old(state).busy && old(state).loaded.Some?
        && (choice == Approve ==> !old(state).stopActive)
      ensures state == if sent then old(state).(busy := true) else old(state)
    {
      if state.status != Pending || state.busy || state.loaded.None? {
        return false;
      }
      if choice == Approve && state.stopActive {
        return false;
      }
      state := state.(busy := true);
      return true;
    }

    method DecisionArrives(generation: nat, id: string, reply: DecisionReply, now: Time) returns (taken: bool)
      modifies this
      ensures taken == IsCurrent(old(state), generation, id)
      ensures state == TakeDecision(old(state), generation, id, reply, now)
      ensures taken <==> old(state).generation == generation && old(state).loaded == Some(id)
      ensures !taken ==> state == old(state)
      ensures state.loaded == old(state).loaded && state.generation == old(state).generation
      ensures state.stopActive == old(state).stopActive && state.stopConfirmedClear == old(state).stopConfirmedClear
      ensures taken && (reply.BadReply? || reply.receipt.proposalId != id) ==>
        state == old(state).(status := Failed, busy := false)
      ensures taken && reply.GoodReceipt? && reply.receipt.proposalId == id ==>
        && !state.busy && state.receipt == Some(reply.receipt)
        && (state.status == Rejected <==> reply.receipt.expiresAt.None?)
        && (state.status == Expired <==> reply.receipt.expiresAt.Some? && reply.receipt.expiresAt.value <= now)
        && (state.status == Approved <==> reply.receipt.expiresAt.Some? && now < reply.receipt.expiresAt.value)
        && (state.executionAvailable <==>
              state.status == Approved && !old(state).stopActive && old(state).stopConfirmedClear)
    {
      if state.generation != generation || state.loaded != Some(id) {
        return false;
      }
      if reply.BadReply? || reply.receipt.proposalId != id {
        state := state.(status := Failed, busy := false);
        return true;
      }
      var receipt := reply.receipt;
      var status := Approved;
      if receipt.expiresAt.None? {
        status := Rejected;
      } else if receipt.expiresAt.value <= now {
        status := Expired;
      }
      state := state.(status := status, busy := false, receipt := Some(receipt));
      state := state.(executionAvailable := CurrentApproval(state, now));
      return true;
    }

    /** Before the confirmation dialogue. */
    method AskToRun(now: Time) returns (confirmation: Option<Confirmation>)
      ensures confirmation == if CanAsk(state, now) then Some(Ask(state)) else None
      ensures confirmation.Some? <==>
        && state.status == Approved && !state.busy && !state.stopActive && state.stopConfirmedClear
        && state.executionAvailable && state.loaded.Some?
        && state.receipt.Some? && Some(state.receipt.value.proposalId) == state.loaded
        && state.receipt.value.expiresAt.Some? && now < state.receipt.value.expiresAt.value
      ensures confirmation.Some? ==>
        && state.receipt.value.approvalId == confirmation.value.approvalId
        && state.receipt.value.expiresAt == Some(confirmation.value.expiresAt)
      ensures confirmation.Some? ==>
        && !state.stopActive && state.stopConfirmedClear && state.status == Approved && !state.busy
        && Some(confirmation.value.proposalId) == state.loaded && confirmation.value.generation == state.generation
        && now < confirmation.value.expiresAt
        && (forall later: Time :: later < confirmation.value.expiresAt ==>
              StillConfirmed(state, confirmation.value, later))
    {
      if !CurrentApproval(state, now) || !state.executionAvailable {
        return None;
      }
      var receipt := state.receipt.value;
      return Some(Confirmation(state.generation, state.loaded.value, receipt.approvalId, receipt.expiresAt.value));
    }

    /** After it, up to the request. */
    method Run(confirmation: Confirmation, now: Time) returns (sent: bool)
      modifies this
      ensures sent == StillConfirmed(old(state), confirmation, now)
      ensures sent <==>
        && old(state).status == Approved && !old(state).busy && old(state).executionAvailable
        && !old(state).stopActive && old(state).stopConfirmedClear
        && old(state).generation == confirmation.generation && old(state).loaded == Some(confirmation.proposalId)
        && old(state).receipt
             == Some(Receipt(confirmation.proposalId, confirmation.approvalId, Some(confirmation.expiresAt)))
        && now < confirmation.expiresAt
      ensures state == if sent then old(state).(busy := true, executionAvailable := false) else old(state)
    {
      if state.loaded.None? || state.receipt.None? || state.generation != confirmation.generation
         || state.loaded.value != confirmation.proposalId || state.receipt.value.proposalId != confirmation.proposalId
         || state.receipt.value.approvalId != confirmation.approvalId
         || state.receipt.value.expiresAt != Some(confirmation.expiresAt)
         || !CurrentApproval(state, now) || !state.executionAvailable {
        return false;
      }
      state := state.(busy := true, executionAvailable := false);
      return true;
    }

    /** The reply to a run: whatever is loaded by then is over, or failed. */
    method RunArrives(good: bool)
      modifies this
      ensures state == TakeRun(old(state), good)
      ensures state.status == (if good then RunOver else Failed) && !state.busy && !state.executionAvailable
      ensures state.loaded == old(state).loaded && state.receipt == old(state).receipt
      ensures state.generation == old(state).generation
    {
      var status := if good then RunOver else Failed;
      state := state.(status := status, busy := false, executionAvailable := false);
    }

    /** An approval whose time is up expires; anything else stays as it is. */
    method RefreshExpiry(now: Time)
      modifies this
      ensures state == RefreshExpiration(old(state), now)
      ensures state.status == Expired <==>
        || old(state).status == Expired
        || (old(state).status == Approved && old(state).receipt.Some?
            && old(state).receipt.value.expiresAt.Some? && old(state).receipt.value.expiresAt.value <= now)
      ensures state.status != Expired ==> state == old(state)
      ensures state == old(state).(status := state.status, executionAvailable := state.executionAvailable)
      ensures old(state).status != Expired && state.status == Expired ==> !state.executionAvailable
    {
      if state.status == Approved && state.receipt.Some? && state.receipt.value.expiresAt.Some?
         && state.receipt.value.expiresAt.value <= now {
        state := state.(status := Expired, executionAvailable := false);
      }
    }

    method SetEmergencyStop(active: bool, confirmedClear: bool, now: Time)
      modifies this
      ensures state == SetStop(old(state), active, confirmedClear, now)
      ensures state.executionAvailable <==> CurrentApproval(state, now)
      ensures state.executionAvailable ==> !active && confirmedClear
      ensures state.status == old(state.status) && state.busy == old(state.busy)
      ensures state.receipt == old(state.receipt) && state.loaded == old(state.loaded)
      ensures state.generation == old(state.generation)
    {
      state := state.(stopActive := active, stopConfirmedClear := !active && confirmedClear);
      state := state.(executionAvailable := CurrentApproval(state, now) && !active);
    }
  }

  class EmergencyStopWorkflow {
    var state: Stop
    const proposals: ProposalWorkflow

    constructor (proposals: ProposalWorkflow)
      ensures state == UNCHECKED_STOP && this.proposals == proposals
    {
      state := UNCHECKED_STOP;
      this.proposals := proposals;
    }

    /** The two states agree on whether the stop is known to be clear. */
    ghost predicate InStep()
      reads this, proposals
    {
      && (state.active <==> state.status != Clear)
      && proposals.state.stopActive == state.active
      && proposals.state.stopConfirmedClear == (state.status == Clear)
    }

    method Update(next: Stop, now: Time)
      modifies this`state, proposals
      ensures state == next
      ensures proposals.state == SetStop(old(proposals.state), next.active, next.status == Clear, now)
    {
      state := next;
      proposals.SetEmergencyStop(state.active, state.status == Clear, now);
    }

    method Click(request: StopRequest, now: Time) returns (sent: bool)
      requires InStep()
      modifies this`state, proposals
      ensures sent <==>
        && !old(state).busy && (request == Activate ==> !old(state).active)
        && (request == ClearStop ==> old(state).active && old(state).status == Active)
      ensures InStep() && sent == CanRequest(old(state), request)
      ensures sent ==> state == Requested(old(state), request) && state.active && state.busy
      ensures sent && request == Refresh ==> state.status == Checking
      ensures sent && request == Activate ==> state.status == Activating
      ensures sent && request == ClearStop ==> state.status == Clearing
      ensures !sent ==> state == old(state) && proposals.state == old(proposals.state)
    {
      if state.busy {
        return false;
      }
      match request {
        case Refresh => Update(Stop(true, true, Checking), now);
        case Activate =>
          if state.active { return false; }
          Update(Stop(true, true, Activating), now);
        case ClearStop =>
          if !state.active || state.status != Active { return false; }
          Update(state.(busy := true, status := Clearing), now);
      }
      return true;
    }

    method AnswerArrives(request: StopRequest, active: Option<bool>, now: Time)
      modifies this`state, proposals
      ensures state == Answered(request, active) && InStep() && !state.busy
      ensures !state.active <==> active == Some(false) && request != Activate
      ensures state.status == Clear <==> !state.active
      ensures state.status == Active <==> active == Some(true) && request != ClearStop
      ensures state.active && state.status != Active ==> state.status == Unknown
    {
      match request {
        case Refresh =>
          if active.None? {
            Update(Stop(true, false, Unknown), now);
          } else {
            Update(Stop(active.value, false, if active.value then Active else Clear), now);
          }
        case Activate =>
          Update(Stop(true, false, if active == Some(true) then Active else Unknown), now);
        case ClearStop =>
          if active == Some(false) {
            Update(Stop(false, false, Clear), now);
          } else {
            Update(Stop(true, false, Unknown), now);
          }
      }
    }
  }
}
