/** Clicks and replies in any order: what the browser sends over whole runs. */
module BrowserRuns {
  import opened Wrappers
  import opened BrowserWorkflows

  /** Requests as they were sent, with what was in force at that moment. */
  datatype DecisionSent = DecisionSent(generation: nat, proposalId: string, choice: Choice, stop: Stop)

  datatype RunSent = RunSent(
    generation: nat, proposalId: string, at: Time, loaded: Option<string>, receipt: Option<Receipt>, stop: Stop)

  /** `openDecisions` and `openRuns` are the sent requests that have no reply yet; `asking` are the
      confirmations on screen; `stopRequest` is the stop request in flight. */
  datatype State = State(
    proposal: Proposal, stop: Stop, stopRequest: Option<StopRequest>, now: Time,
    decisions: seq<DecisionSent>, openDecisions: set<nat>,
    asking: set<Confirmation>,
    runs: seq<RunSent>, openRuns: set<nat>)

  const INITIAL := State(NO_PROPOSAL, UNCHECKED_STOP, None, 0, [], {}, {}, [], {})

  datatype Move =
    | LoadArrives(id: string, allowed: bool)
    | ClickDecide(choice: Choice)
    | DecisionArrives(request: nat, reply: DecisionReply)
    | ClickRun
    | AnswerDialogue(confirmation: Confirmation, yes: bool)
    | RunArrives(request: nat, good: bool)
    | ExpiryTimer
    | ClickStop(stopRequest: StopRequest)
    | StopArrives(active: Option<bool>)
    | TimeIs(now: Time)

  predicate Enabled(s: State, move: Move) {
    match move
    case DecisionArrives(i, _) => i in s.openDecisions && i < |s.decisions|
    case AnswerDialogue(c, _) => c in s.asking
    case RunArrives(i, _) => i in s.openRuns
    case StopArrives(_) => s.stopRequest.Some?
    case _ => true
  }

  /** Every change of the stop is passed on at once. */
  function WithStop(s: State, stop: Stop): State {
    s.(stop := stop, proposal := SetStop(s.proposal, stop.active, stop.status == Clear, s.now))
  }

  function Step(s: State, move: Move): State
    requires Enabled(s, move)
  {
    match move
    case LoadArrives(id, allowed) => s.(proposal := Load(s.proposal, id, allowed))
    case ClickDecide(choice) =>
      if !CanDecide(s.proposal, choice) then s
      else s.(proposal := s.proposal.(busy := true), openDecisions := s.openDecisions + {|s.decisions|},
              decisions := s.decisions + [DecisionSent(s.proposal.generation, s.proposal.loaded.value, choice, s.stop)])
    case DecisionArrives(i, reply) =>
      s.(openDecisions := s.openDecisions - {i},
         proposal := TakeDecision(s.proposal, s.decisions[i].generation, s.decisions[i].proposalId, reply, s.now))
    case ClickRun => if CanAsk(s.proposal, s.now) then s.(asking := s.asking + {Ask(s.proposal)}) else s
    case AnswerDialogue(c, yes) =>
      if !yes || !StillConfirmed(s.proposal, c, s.now) then s.(asking := s.asking - {c})
      else s.(asking := s.asking - {c}, proposal := SendRun(s.proposal), openRuns := s.openRuns + {|s.runs|},
              runs := s.runs + [RunSent(s.proposal.generation, s.proposal.loaded.value, s.now, s.proposal.loaded,
                                        s.proposal.receipt, s.stop)])
    case RunArrives(i, good) => s.(openRuns := s.openRuns - {i}, proposal := TakeRun(s.proposal, good))
    case ExpiryTimer => s.(proposal := RefreshExpiration(s.proposal, s.now))
    case ClickStop(request) =>
      if CanRequest(s.stop, request) then WithStop(s, Requested(s.stop, request)).(stopRequest := Some(request)) else s
    case StopArrives(active) => WithStop(s, Answered(s.stopRequest.value, active)).(stopRequest := None)
    case TimeIs(now) => s.(now := now)
  }

  ghost predicate Runs(s: State, moves: seq<Move>)
    decreases |moves|
  {
    moves == [] || (Enabled(s, moves[0]) && Runs(Step(s, moves[0]), moves[1..]))
  }

  ghost function Exec(s: State, moves: seq<Move>): State
    requires Runs(s, moves)
    decreases |moves|
  {
    if moves == [] then s else Exec(Step(s, moves[0]), moves[1..])
  }

  // ---------------------------------------------------------------- the invariant

  /** The proposal workflow knows what the stop workflow knows. */
  predicate InStep(s: State) {
    && (s.stop.active <==> s.stop.status != Clear)
    && s.proposal.stopActive == s.stop.active
    && s.proposal.stopConfirmedClear == (s.stop.status == Clear)
  }

  /** A decision of the loaded generation, on the loaded proposal, was sent and answered. */
  ghost predicate Decided(s: State) {
    exists i :: 0 <= i < |s.decisions| && i !in s.openDecisions
      && s.decisions[i].generation == s.proposal.generation && Some(s.decisions[i].proposalId) == s.proposal.loaded
  }

  ghost predicate HasRun(s: State) {
    exists i :: 0 <= i < |s.runs| && s.runs[i].generation == s.proposal.generation
  }

  ghost predicate DecisionsOk(s: State) {
    && (forall i | 0 <= i < |s.decisions| :: s.decisions[i].generation <= s.proposal.generation)
    && (forall i, j | 0 <= i < j < |s.decisions| :: s.decisions[i].generation != s.decisions[j].generation)
    && (forall i | 0 <= i < |s.decisions| :: s.decisions[i].choice == Approve ==> s.decisions[i].stop.status == Clear)
    && (s.proposal.status == Pending && !s.proposal.busy ==>
          forall i | 0 <= i < |s.decisions| :: s.decisions[i].generation != s.proposal.generation)
  }

  predicate RunOk(r: RunSent) {
    && r.stop.status == Clear && !r.stop.active
    && r.loaded == Some(r.proposalId)
    && r.receipt.Some? && r.receipt.value.proposalId == r.proposalId
    && r.receipt.value.expiresAt.Some? && r.at < r.receipt.value.expiresAt.value
  }

  /** The run's generation had a decision on the same proposal. */
  ghost predicate WasDecided(s: State, r: RunSent) {
    exists i :: 0 <= i < |s.decisions|
      && s.decisions[i].generation == r.generation && s.decisions[i].proposalId == r.proposalId
  }

  ghost predicate RunsOk(s: State) {
    && (forall i | 0 <= i < |s.runs| :: s.runs[i].generation <= s.proposal.generation)
    && (forall i, j | 0 <= i < j < |s.runs| :: s.runs[i].generation != s.runs[j].generation)
    && (forall i | 0 <= i < |s.runs| :: RunOk(s.runs[i]) && WasDecided(s, s.runs[i]))
    && (HasRun(s) ==> Decided(s) && (s.proposal.status == Approved ==> s.proposal.busy))
  }

  ghost predicate Inv(s: State) {
    && InStep(s) && DecisionsOk(s) && RunsOk(s)
    && (s.proposal.status == Approved ==> Decided(s))
  }

  // ---------------------------------------------------------------- every step keeps it

  /** Steps that send nothing and load nothing. */
  ghost predicate Quiet(s: State, t: State) {
    && t.decisions == s.decisions && t.runs == s.runs && t.openDecisions <= s.openDecisions
    && t.proposal.generation == s.proposal.generation && t.proposal.loaded == s.proposal.loaded
    && (t.proposal.status == Pending && !t.proposal.busy ==> s.proposal.status == Pending && !s.proposal.busy)
  }

  lemma InvFromQuiet(s: State, t: State)
    requires Inv(s) && Quiet(s, t) && InStep(t)
    requires t.proposal.status == Approved ==> Decided(t)
    requires HasRun(s) ==> t.proposal.status == Approved ==> t.proposal.busy
    ensures Inv(t)
  {
  }

  lemma LoadKeepsInv(s: State, id: string, allowed: bool)
    requires Inv(s)
    ensures Inv(Step(s, LoadArrives(id, allowed)))
  {
  }

  lemma DecideKeepsInv(s: State, choice: Choice)
    requires Inv(s) && CanDecide(s.proposal, choice)
    ensures Inv(Step(s, ClickDecide(choice)))
  {
    var t := Step(s, ClickDecide(choice));
    assert !Decided(s);
    assert !HasRun(s);
    forall i | 0 <= i < |t.runs| ensures WasDecided(t, t.runs[i]) {
      assert WasDecided(s, s.runs[i]);
      var j :| 0 <= j < |s.decisions| && s.decisions[j].generation == s.runs[i].generation
        && s.decisions[j].proposalId == s.runs[i].proposalId;
      assert t.decisions[j] == s.decisions[j];
    }
  }

  /** While a decision of the loaded generation has no reply, that generation has no run. */
  lemma OpenDecisionIsTheOnlyOne(s: State, i: nat)
    requires Inv(s) && i in s.openDecisions && i < |s.decisions|
    requires s.decisions[i].generation == s.proposal.generation
    ensures !Decided(s) && !HasRun(s)
  {
  }

  lemma ReplyKeepsInv(s: State, i: nat, reply: DecisionReply)
    requires Inv(s) && Enabled(s, DecisionArrives(i, reply))
    ensures Inv(Step(s, DecisionArrives(i, reply)))
  {
    var t := Step(s, DecisionArrives(i, reply));
    if IsCurrent(s.proposal, s.decisions[i].generation, s.decisions[i].proposalId) {
      OpenDecisionIsTheOnlyOne(s, i);
      assert i !in t.openDecisions && t.decisions[i] == s.decisions[i];
      assert Decided(t);
    } else if Decided(s) {
      var j :| 0 <= j < |s.decisions| && j !in s.openDecisions
        && s.decisions[j].generation == s.proposal.generation && Some(s.decisions[j].proposalId) == s.proposal.loaded;
      assert j !in t.openDecisions;
    }
    InvFromQuiet(s, t);
  }

  lemma RunKeepsInvOnce(s: State, c: Confirmation)
    requires Inv(s) && c in s.asking && StillConfirmed(s.proposal, c, s.now)
    ensures Inv(Step(s, AnswerDialogue(c, true)))
  {
  }

  predicate SendsNothing(s: State, move: Move) {
    || move.ClickRun? || move.RunArrives? || move.ExpiryTimer? || move.ClickStop? || move.StopArrives? || move.TimeIs?
    || (move.AnswerDialogue? && !(move.yes && StillConfirmed(s.proposal, move.confirmation, s.now)))
    || (move.ClickDecide? && !CanDecide(s.proposal, move.choice))
  }

  lemma OtherStepIsQuiet(s: State, move: Move)
    requires Inv(s) && Enabled(s, move) && SendsNothing(s, move)
    ensures var t := Step(s, move);
      && Quiet(s, t) && InStep(t)
      && (t.proposal.status == Approved ==> s.proposal.status == Approved && t.proposal.busy == s.proposal.busy)
  {
  }

  lemma QuietKeepsDecided(s: State, t: State)
    requires Quiet(s, t) && Decided(s)
    ensures Decided(t)
  {
    var j :| 0 <= j < |s.decisions| && j !in s.openDecisions
      && s.decisions[j].generation == s.proposal.generation && Some(s.decisions[j].proposalId) == s.proposal.loaded;
    assert j !in t.openDecisions;
  }

  lemma OtherStepKeepsInv(s: State, move: Move)
    requires Inv(s) && Enabled(s, move) && SendsNothing(s, move)
    ensures Inv(Step(s, move))
  {
    var t := Step(s, move);
    OtherStepIsQuiet(s, move);
    if Decided(s) {
      QuietKeepsDecided(s, t);
    }
    InvFromQuiet(s, t);
  }

  lemma StepKeepsInv(s: State, move: Move)
    requires Inv(s) && Enabled(s, move)
    ensures Inv(Step(s, move))
  {
    match move {
      case LoadArrives(id, allowed) => LoadKeepsInv(s, id, allowed);
      case ClickDecide(choice) =>
        if CanDecide(s.proposal, choice) {
          DecideKeepsInv(s, choice);
        } else {
          OtherStepKeepsInv(s, move);
        }
      case DecisionArrives(i, reply) => ReplyKeepsInv(s, i, reply);
      case AnswerDialogue(c, yes) =>
        if yes && StillConfirmed(s.proposal, c, s.now) {
          RunKeepsInvOnce(s, c);
        } else {
          OtherStepKeepsInv(s, move);
        }
      case _ => OtherStepKeepsInv(s, move);
    }
  }

  lemma {:induction false} RunKeepsInv(s: State, moves: seq<Move>)
    requires Inv(s) && Runs(s, moves)
    ensures Inv(Exec(s, moves))
    decreases |moves|
  {
    if moves == [] {
    } else {
      StepKeepsInv(s, moves[0]);
      RunKeepsInv(Step(s, moves[0]), moves[1..]);
    }
  }

  // ---------------------------------------------------------------- the theorems

  /** Over every interleaving of clicks and replies: at most one decision and at most one run per
      loaded generation; an approval is asked for only while the stop is known to be clear; a run is
      sent only then, for the loaded proposal, under an unexpired receipt for it, and after a decision
      on it in the same generation. */
  lemma BrowserSendsAtMostOnce(moves: seq<Move>)
    requires Runs(INITIAL, moves)
    ensures var s := Exec(INITIAL, moves);
      && (forall i, j | 0 <= i < j < |s.decisions| :: s.decisions[i].generation != s.decisions[j].generation)
      && (forall i, j | 0 <= i < j < |s.runs| :: s.runs[i].generation != s.runs[j].generation)
      && (forall i | 0 <= i < |s.decisions| :: s.decisions[i].choice == Approve ==> s.decisions[i].stop.status == Clear)
      && (forall i | 0 <= i < |s.runs| :: RunOk(s.runs[i]) && WasDecided(s, s.runs[i]))
  {
    assert Inv(INITIAL);
    RunKeepsInv(INITIAL, moves);
  }

  // ---------------------------------------------------------------- which replies find their own proposal

  function Loads(moves: seq<Move>): nat {
    if moves == [] then 0 else (if moves[0].LoadArrives? then 1 else 0) + Loads(moves[1..])
  }

  lemma StepCountsLoads(s: State, move: Move)
    requires Enabled(s, move)
    ensures var t := Step(s, move);
      && t.proposal.generation == s.proposal.generation + Loads([move])
      && (!move.LoadArrives? ==> t.proposal.loaded == s.proposal.loaded)
      && s.decisions <= t.decisions && s.runs <= t.runs
  {
  }

  /** The generation counts the recommendations that arrived, and what was sent stays on record. */
  lemma {:induction false} GenerationCountsLoads(s: State, moves: seq<Move>)
    requires Runs(s, moves)
    ensures var t := Exec(s, moves);
      && t.proposal.generation == s.proposal.generation + Loads(moves)
      && (Loads(moves) == 0 ==> t.proposal.loaded == s.proposal.loaded)
      && s.decisions <= t.decisions && s.runs <= t.runs
    decreases |moves|
  {
    if moves == [] {
    } else {
      StepCountsLoads(s, moves[0]);
      GenerationCountsLoads(Step(s, moves[0]), moves[1..]);
    }
  }

  /** Of a decision that was sent for what is loaded, over any run after it: the reply is taken exactly if
      no recommendation arrived in between, and otherwise changes nothing but that it has arrived. */
  lemma DecisionReplyIsTakenUnlessLoaded(s: State, moves: seq<Move>, i: nat, reply: DecisionReply)
    requires Runs(s, moves) && i < |s.decisions|
    requires IsCurrent(s.proposal, s.decisions[i].generation, s.decisions[i].proposalId)
    requires Enabled(Exec(s, moves), DecisionArrives(i, reply))
    ensures var t := Exec(s, moves); var sent := s.decisions[i];
      && (IsCurrent(t.proposal, sent.generation, sent.proposalId) <==> Loads(moves) == 0)
      && Step(t, DecisionArrives(i, reply)) == t.(
           openDecisions := t.openDecisions - {i},
           proposal := if Loads(moves) > 0 then t.proposal
                       else TakeDecision(t.proposal, sent.generation, sent.proposalId, reply, t.now))
  {
    GenerationCountsLoads(s, moves);
    assert Exec(s, moves).decisions[i] == s.decisions[i];
  }

  /** Of a run that was sent for what is loaded, over any run of the browser after it: its reply, which is
      taken in any case, meets its own proposal exactly if no recommendation arrived in between. */
  lemma RunReplyMeetsItsOwnUnlessLoaded(s: State, moves: seq<Move>, i: nat)
    requires Runs(s, moves) && i < |s.runs|
    requires s.runs[i].generation == s.proposal.generation && Some(s.runs[i].proposalId) == s.proposal.loaded
    ensures var t := Exec(s, moves);
      && i < |t.runs| && t.runs[i] == s.runs[i]
      && (t.proposal.generation == t.runs[i].generation <==> Loads(moves) == 0)
      && (Loads(moves) == 0 ==> t.proposal.loaded == Some(t.runs[i].proposalId))
  {
    GenerationCountsLoads(s, moves);
  }

  lemma RunCons(s: State, move: Move, rest: seq<Move>)
    requires Enabled(s, move) && Runs(Step(s, move), rest)
    ensures Runs(s, [move] + rest) && Exec(s, [move] + rest) == Exec(Step(s, move), rest)
  {
  }

  /** The last proposal is over, though no decision and no run was ever sent in its generation, and no run
      for it. */
  ghost predicate OverWithoutRun(s: State) {
    && s.proposal.status == RunOver && !HasRun(s)
    && (forall i | 0 <= i < |s.decisions| :: s.decisions[i].generation != s.proposal.generation)
    && forall i | 0 <= i < |s.runs| :: Some(s.runs[i].proposalId) != s.proposal.loaded
  }

  /** In any state with a run in flight, a recommendation not run yet arrives, and the reply ends it. */
  lemma LateReplyEndsUnrunProposal(s: State, i: nat, id: string)
    requires Inv(s) && i in s.openRuns && (forall j | 0 <= j < |s.runs| :: s.runs[j].proposalId != id)
    ensures Runs(s, [LoadArrives(id, true)] + ([RunArrives(i, true)] + []))
    ensures var t := Exec(s, [LoadArrives(id, true)] + ([RunArrives(i, true)] + []));
      OverWithoutRun(t) && t.proposal.loaded == Some(id) && t.decisions == s.decisions
  {
    var t := Step(s, LoadArrives(id, true));
    RunCons(t, RunArrives(i, true), []);
    RunCons(s, LoadArrives(id, true), [RunArrives(i, true)] + []);
  }

  lemma {:induction false} RunAppend(s: State, first: seq<Move>, second: seq<Move>)
    requires Runs(s, first) && Runs(Exec(s, first), second)
    ensures Runs(s, first + second) && Exec(s, first + second) == Exec(Exec(s, first), second)
    decreases |first|
  {
    if first == [] {
      assert first + second == second;
    } else {
      assert first + second == [first[0]] + (first[1..] + second);
      RunAppend(Step(s, first[0]), first[1..], second);
      RunCons(s, first[0], first[1..] + second);
    }
  }

  /** The stop is found clear, and "p" arrives. */
  lemma PendingIsReached() returns (moves: seq<Move>)
    ensures Runs(INITIAL, moves)
    ensures var s := Exec(INITIAL, moves);
      && s == INITIAL.(stop := Stop(false, false, Clear), proposal := s.proposal)
      && s.proposal == Proposal(Pending, false, false, false, true, Some("p"), None, 1)
  {
    var s1 := Step(INITIAL, ClickStop(Refresh));
    var s2 := Step(s1, StopArrives(Some(false)));
    RunCons(s2, LoadArrives("p", true), []);
    RunCons(s1, StopArrives(Some(false)), [LoadArrives("p", true)] + []);
    RunCons(INITIAL, ClickStop(Refresh), [StopArrives(Some(false))] + ([LoadArrives("p", true)] + []));
    moves := [ClickStop(Refresh)] + ([StopArrives(Some(false))] + ([LoadArrives("p", true)] + []));
  }

  /** A pending proposal is approved. */
  lemma PendingIsApproved(s: State) returns (moves: seq<Move>)
    requires s.proposal == Proposal(Pending, false, false, false, true, Some("p"), None, 1)
    requires s.decisions == [] && s.now == 0
    ensures Runs(s, moves)
    ensures var t := Exec(s, moves); CanAsk(t.proposal, t.now) && t.proposal.loaded == Some("p") && t.runs == s.runs
  {
    var reply := DecisionArrives(0, GoodReceipt(Receipt("p", "k", Some(1))));
    var t := Step(s, ClickDecide(Approve));
    assert t.decisions == [DecisionSent(1, "p", Approve, s.stop)];
    RunCons(t, reply, []);
    RunCons(s, ClickDecide(Approve), [reply] + []);
    moves := [ClickDecide(Approve)] + ([reply] + []);
  }

  /** What is available to be run is asked for, confirmed and in flight. */
  lemma AvailableRunIsSent(s: State) returns (moves: seq<Move>)
    requires CanAsk(s.proposal, s.now)
    ensures Runs(s, moves)
    ensures var t := Exec(s, moves);
      && t.runs == s.runs + [RunSent(s.proposal.generation, s.proposal.loaded.value, s.now, s.proposal.loaded,
                                     s.proposal.receipt, s.stop)]
      && |s.runs| in t.openRuns
  {
    var yes := AnswerDialogue(Ask(s.proposal), true);
    RunCons(Step(s, ClickRun), yes, []);
    RunCons(s, ClickRun, [yes] + []);
    moves := [ClickRun] + ([yes] + []);
  }

  /** The other case is reached from a browser just opened: the run of "p" is in flight when "q" arrives,
      and its reply ends "q", for which nothing was ever sent. */
  lemma UnrunProposalIsEnded() returns (moves: seq<Move>)
    ensures Runs(INITIAL, moves)
    ensures var s := Exec(INITIAL, moves); OverWithoutRun(s) && s.proposal.loaded == Some("q")
  {
    moves := PendingIsReached();
    var approving := PendingIsApproved(Exec(INITIAL, moves));
    RunAppend(INITIAL, moves, approving);
    moves := moves + approving;
    var sending := AvailableRunIsSent(Exec(INITIAL, moves));
    RunAppend(INITIAL, moves, sending);
    moves := moves + sending;
    assert Inv(INITIAL);
    RunKeepsInv(INITIAL, moves);
    var late := [LoadArrives("q", true)] + ([RunArrives(0, true)] + []);
    LateReplyEndsUnrunProposal(Exec(INITIAL, moves), 0, "q");
    RunAppend(INITIAL, moves, late);
    moves := moves + late;
  }
}
