/** The protocol over the program's own validation: what the registry lets pass is all that any run
    dispatches. */
module ValidatedRuns {
  import opened Wrappers
  import opened JsonValues
  import opened ProtectedRecord
  import opened ActionNames
  import opened Registry
  import opened GuardedExecution
  import opened GuardedExecutionInvariants
  import opened GuardedExecutionTheorems

  /** The rows of one proposal as the program reads them back. */
  datatype StoredProposal = StoredProposal(wire: AIProposal, findingIds: set<string>)

  function ValueOf(value: Json): Value
    requires value.Str? || value.Int?
  {
    if value.Str? then Text(value.s) else Number(value.n)
  }

  /** Validation of stored rows, None also when they do not parse. */
  function ValidatedOf(stored: Option<StoredProposal>, targetId: Id): Option<Validated> {
    if stored.None? then None
    else
      match ValidateUntrusted(stored.value.wire, targetId, stored.value.findingIds)
      case None => None
      case Some(proposal) =>
        var arguments := proposal.arguments;
        Some(Validated(proposal.actionName, map k | k in arguments :: ValueOf(arguments[k])))
  }

  /** `read` gives the rows that a proposal's content stands for, with the findings of that target. */
  ghost predicate ValidatesBy(rules: Rules, read: (string, Id) -> Option<StoredProposal>) {
    forall content, targetId :: rules.validate(content, targetId) == ValidatedOf(read(content, targetId), targetId)
  }

  predicate NumberBetween(value: Value, low: int, high: int) {
    value.Number? && low <= value.number <= high
  }

  /** A registered action with its own target, a port in range, and a time limit if the action has one. */
  predicate InRegistry(name: string, arguments: Arguments, targetId: Id) {
    && IsRegistered(name)
    && arguments.Keys == {"target_id", "port"} + (if name == TCP_CONNECTION then {"timeout_seconds"} else {})
    && arguments["target_id"] == Text(targetId) && 1 <= |targetId| <= 128
    && NumberBetween(arguments["port"], 1, 65535)
    && (name == TCP_CONNECTION ==> NumberBetween(arguments["timeout_seconds"], 1, 10))
  }

  lemma ValidatedIsInRegistry(stored: Option<StoredProposal>, targetId: Id)
    requires ValidatedOf(stored, targetId).Some?
    ensures var validated := ValidatedOf(stored, targetId).value;
      InRegistry(validated.actionName, validated.arguments, targetId)
  {
    var wire := stored.value.wire;
    var arguments := ModelArguments(wire.actionName, wire.arguments).value;
    assert arguments.Keys
      == {"target_id", "port"} + (if wire.actionName == TCP_CONNECTION then {"timeout_seconds"} else {});
    assert ValidatedOf(stored, targetId).value.arguments.Keys == arguments.Keys;
  }

  lemma ProgramValidatesRegistered(rules: Rules, read: (string, Id) -> Option<StoredProposal>)
    requires ValidatesBy(rules, read)
    ensures RegisteredOnly(rules)
  {
    forall content, targetId | rules.validate(content, targetId).Some?
      ensures IsRegistered(rules.validate(content, targetId).value.actionName)
    {
      ValidatedIsInRegistry(read(content, targetId), targetId);
    }
  }

  // ---------------------------------------------------------------- what was checked is what is granted

  /** The granted name and the hashed arguments came out of validation, for a target with a private address. */
  ghost predicate GrantChecked(rules: Rules, grant: Grant) {
    && rules.isPrivate(grant.address)
    && exists content :: rules.validate(content, grant.targetId) == Some(Validated(grant.actionName, grant.checked))
  }

  predicate TargetChecked(rules: Rules, worker: Worker) {
    worker.cache.target.Some? ==> rules.isPrivate(worker.cache.target.value.address)
  }

  ghost predicate ScopesChecked(rules: Rules, s: State) {
    && (forall w: nat | w < |s.workers| :: TargetChecked(rules, s.workers[w]))
    && (forall i | 0 <= i < |s.starts| :: GrantChecked(rules, s.starts[i]))
  }

  lemma ReadKeepsTargetChecked(rules: Rules, s: State, w: nat)
    requires CanAdvance(s, w) && s.workers[w].pc.Checking? && TargetChecked(rules, s.workers[w])
    ensures OnlyWorker(s, CheckStep(rules, s, w), w) && TargetChecked(rules, CheckStep(rules, s, w).workers[w])
  {
    CheckStepShape(rules, s, w);
  }

  lemma VerdictIsChecked(rules: Rules, s: State, w: nat)
    requires Inv(rules, s) && CanAdvance(s, w) && s.workers[w].pc.Checking? && TargetChecked(rules, s.workers[w])
    requires CheckStep(rules, s, w).starts != s.starts
    ensures CanGrant(rules, s.workers[w])
    ensures CheckStep(rules, s, w).starts == s.starts + [MakeGrant(rules, s.workers[w], s.clock)]
    ensures GrantChecked(rules, MakeGrant(rules, s.workers[w], s.clock))
  {
    VerdictIsSound(rules, s, w);
    StartNeedsVerdict(rules, s, w);
    var worker := s.workers[w];
    assert CheckOk(rules, s.store, worker);
    var grant := MakeGrant(rules, worker, s.clock);
    assert rules.validate(worker.cache.proposal.value.content, grant.targetId)
      == Some(Validated(grant.actionName, grant.checked));
  }

  lemma ScopesFromWorker(rules: Rules, s: State, t: State, w: nat, added: seq<Grant>)
    requires ScopesChecked(rules, s) && OnlyWorker(s, t, w) && TargetChecked(rules, t.workers[w])
    requires t.starts == s.starts + added && (forall g <- added :: GrantChecked(rules, g))
    ensures ScopesChecked(rules, t)
  {
    forall i | 0 <= i < |t.starts| ensures GrantChecked(rules, t.starts[i]) {
      assert i >= |s.starts| ==> t.starts[i] in added;
    }
  }

  lemma CheckKeepsScopes(rules: Rules, s: State, w: nat)
    requires Inv(rules, s) && ScopesChecked(rules, s) && CanAdvance(s, w) && s.workers[w].pc.Checking?
    ensures ScopesChecked(rules, CheckStep(rules, s, w))
  {
    ReadKeepsTargetChecked(rules, s, w);
    if CheckStep(rules, s, w).starts != s.starts {
      VerdictIsChecked(rules, s, w);
      ScopesFromWorker(rules, s, CheckStep(rules, s, w), w, [MakeGrant(rules, s.workers[w], s.clock)]);
    } else {
      ScopesFromWorker(rules, s, CheckStep(rules, s, w), w, []);
    }
  }

  lemma UnderwayKeepsTargets(rules: Rules, s: State, w: nat)
    requires CanAdvance(s, w) && IsUnderway(s.workers[w].pc) && TargetChecked(rules, s.workers[w])
    ensures Valid(AdvanceStep(rules, s, w), w) && TargetChecked(rules, AdvanceStep(rules, s, w).workers[w])
  {
  }

  lemma CommitKeepsTargets(rules: Rules, s: State, w: nat)
    requires CanAdvance(s, w) && Commits(s.workers[w].pc) && TargetChecked(rules, s.workers[w])
    ensures Valid(AdvanceStep(rules, s, w), w) && TargetChecked(rules, AdvanceStep(rules, s, w).workers[w])
  {
  }

  lemma LateKeepsTargets(rules: Rules, s: State, w: nat)
    requires CanAdvance(s, w) && !IsUnderway(s.workers[w].pc) && !Commits(s.workers[w].pc) && !s.workers[w].pc.Checking?
    requires TargetChecked(rules, s.workers[w])
    ensures Valid(AdvanceStep(rules, s, w), w) && TargetChecked(rules, AdvanceStep(rules, s, w).workers[w])
  {
  }

  lemma AdvanceKeepsTargets(rules: Rules, s: State, w: nat)
    requires CanAdvance(s, w) && !s.workers[w].pc.Checking? && TargetChecked(rules, s.workers[w])
    ensures Valid(AdvanceStep(rules, s, w), w) && TargetChecked(rules, AdvanceStep(rules, s, w).workers[w])
  {
    if IsUnderway(s.workers[w].pc) {
      UnderwayKeepsTargets(rules, s, w);
    } else if Commits(s.workers[w].pc) {
      CommitKeepsTargets(rules, s, w);
    } else {
      LateKeepsTargets(rules, s, w);
    }
  }

  lemma ClaimKeepsTargets(rules: Rules, s: State, w: nat, k: Id, a: Id)
    requires Enabled(rules, s, Claim(w, k, a))
    ensures var t := ClaimStep(rules, s, w, k, a); OnlyWorker(s, t, w) && TargetChecked(rules, t.workers[w])
  {
  }

  lemma OtherMovesKeepTargets(rules: Rules, s: State, move: Move)
    requires Enabled(rules, s, move) && !move.Advance? && !move.Claim? && ScopesChecked(rules, s)
    ensures ScopesChecked(rules, Step(rules, s, move))
  {
  }

  lemma StepKeepsScopes(rules: Rules, s: State, move: Move)
    requires Inv(rules, s) && ScopesChecked(rules, s) && Enabled(rules, s, move)
    ensures ScopesChecked(rules, Step(rules, s, move))
  {
    if !move.Advance? && !move.Claim? {
      OtherMovesKeepTargets(rules, s, move);
    } else if move.Advance? && s.workers[move.worker].pc.Checking? {
      CheckKeepsScopes(rules, s, move.worker);
    } else {
      StartsOnlyInCheck(rules, s, move);
      if move.Advance? {
        AdvanceContinues(rules, s, move.worker);
        AdvanceKeepsTargets(rules, s, move.worker);
      } else {
        ClaimKeepsTargets(rules, s, move.worker, move.approvalId, move.actionId);
      }
      ScopesFromWorker(rules, s, Step(rules, s, move), move.worker, []);
    }
  }

  lemma {:induction false} RunKeepsScopes(rules: Rules, s: State, moves: seq<Move>)
    requires Inv(rules, s) && ScopesChecked(rules, s) && Runs(rules, s, moves)
    ensures ScopesChecked(rules, Exec(rules, s, moves))
    decreases |moves|
  {
    if moves == [] {
    } else {
      StepKeepsScopes(rules, s, moves[0]);
      StepKeepsInv(rules, s, moves[0]);
      RunKeepsScopes(rules, Step(rules, s, moves[0]), moves[1..]);
    }
  }

  /** Over every run, whatever rows are rewritten: every dispatch names a registered action, the arguments
      hashed at its check have that action's own keys with its values in range and its own target, and the
      address passed the private-address test. */
  lemma EveryDispatchIsInRegistry(rules: Rules, read: (string, Id) -> Option<StoredProposal>, s: State,
                                  moves: seq<Move>)
    requires ValidatesBy(rules, read) && Initial(s) && Runs(rules, s, moves)
    ensures var t := Exec(rules, s, moves);
      forall d <- t.dispatches ::
        && InRegistry(d.actionName, d.checked, d.targetId) && Matches(d.arguments, d.checked)
        && rules.isPrivate(d.address)
  {
    var t := Exec(rules, s, moves);
    InitialInv(rules, s);
    RunKeepsInv(rules, s, moves);
    RunKeepsScopes(rules, s, moves);
    forall d <- t.dispatches
      ensures InRegistry(d.actionName, d.checked, d.targetId) && Matches(d.arguments, d.checked)
        && rules.isPrivate(d.address)
    {
      var i :| 0 <= i < |t.dispatches| && t.dispatches[i] == d;
      assert d in t.starts;
      var j :| 0 <= j < |t.starts| && t.starts[j] == d;
      assert StartOk(rules, t.store, t.starts[j]) && GrantChecked(rules, t.starts[j]);
      var content :| rules.validate(content, d.targetId) == Some(Validated(d.actionName, d.checked));
      ValidatedIsInRegistry(read(content, d.targetId), d.targetId);
    }
  }
}
