/** From the approval to the command line: what the runner is given is what was approved. */
module ApprovedCommand {
  import opened Wrappers
  import opened JsonValues
  import opened ProtectedRecord
  import opened ApprovalHash
  import opened GuardedExecution
  import opened FinalCheck
  import opened ActionNames
  import opened Registry
  import opened ActionSpecs
  import opened CommandReader
  import opened ValidatedRuns

  /** The address text under the hash is the one the renderer writes, for addresses without a zone. */
  ghost predicate CanonicalBy(rules: Rules, lib: AddressLibrary) {
    forall text :: '%' !in text && lib.parse(text).Some? ==> rules.canonical(text) == lib.write(lib.parse(text).value)
  }

  /** The renderer takes no number that is not a whole number written as one, and no truth value. */
  lemma RenderedArgumentsAreExact(lib: AddressLibrary, name: string, arguments: Loaded, targetId: string,
                                  address: string)
    requires RenderFixedAction(lib, name, arguments, targetId, address).Some?
    ensures IsExact(arguments)
  {
  }

  lemma RenderedScope(lib: AddressLibrary, name: string, arguments: Loaded, targetId: string, address: string)
    requires RenderFixedAction(lib, name, arguments, targetId, address).Some?
    ensures var spec := RenderFixedAction(lib, name, arguments, targetId, address).value;
      && spec.name == name && spec.targetId == targetId && "port" in arguments && arguments["port"] == Int(spec.port)
      && '%' !in address && lib.parse(address).Some? && spec.address == lib.write(lib.parse(address).value)
  {
  }

  /** The command, read back, is the approved action on the approved address and port, for the approved time. */
  predicate CommandSays(argv: seq<string>, approved: Scope) {
    var command := ReadCommand(argv);
    && command.Some? && command.value.name == approved.actionName && command.value.address == approved.address
    && "port" in approved.arguments && approved.arguments["port"] == Number(command.value.port)
    && ("timeout_seconds" in approved.arguments ==>
          approved.arguments["timeout_seconds"] == Number(command.value.limit))
  }

  /** Rewriting a stored 80 as 80.0 gets past the final check's comparison, so what is dispatched may
      differ from what was approved in how its numbers are written; but then nothing is rendered.
      Whatever is rendered has the approved action name, target, address and arguments, exactly, and so has
      the command line itself when it is read back. */
  lemma CommandIsWhatWasApproved(rules: Rules, lib: AddressLibrary, s: State, moves: seq<Move>)
    requires forall scope :: rules.hash(scope) == ProtectedHash(scope)
    requires GoodLibrary(lib) && CanonicalBy(rules, lib)
    requires Initial(s) && Runs(rules, s, moves)
    ensures var t := Exec(rules, s, moves);
      forall d <- t.dispatches ::
        d.approvalId in t.decided
        && var approved := t.decided[d.approvalId].scope;
           var rendered := RenderFixedAction(lib, d.actionName, d.arguments, d.targetId, d.address);
           rendered.Some? ==>
             && d.arguments == Stored(approved.arguments)
             && rendered.value.name == approved.actionName
             && rendered.value.targetId == approved.targetId
             && rendered.value.address == approved.address
             && "port" in approved.arguments && approved.arguments["port"] == Number(rendered.value.port)
             && RunnerAccepts(rendered.value.argv, rendered.value.timeout)
             && CommandSays(rendered.value.argv, approved)
  {
    DispatchMatchesApprovedText(rules, s, moves);
    var t := Exec(rules, s, moves);
    forall d <- t.dispatches | RenderFixedAction(lib, d.actionName, d.arguments, d.targetId, d.address).Some?
      ensures var approved := t.decided[d.approvalId].scope;
        var spec := RenderFixedAction(lib, d.actionName, d.arguments, d.targetId, d.address).value;
        && d.arguments == Stored(approved.arguments)
        && spec.name == approved.actionName && spec.targetId == approved.targetId && spec.address == approved.address
        && "port" in approved.arguments && approved.arguments["port"] == Number(spec.port)
        && RunnerAccepts(spec.argv, spec.timeout)
        && CommandSays(spec.argv, approved)
    {
      var approved := t.decided[d.approvalId].scope;
      ApprovedIsRendered(lib, d, approved);
    }
  }

  lemma ApprovedIsRendered(lib: AddressLibrary, d: Grant, approved: Scope)
    requires GoodLibrary(lib) && d.actionName == approved.actionName && Matches(d.arguments, approved.arguments)
    requires RenderFixedAction(lib, d.actionName, d.arguments, d.targetId, d.address).Some?
    ensures var spec := RenderFixedAction(lib, d.actionName, d.arguments, d.targetId, d.address).value;
      && d.arguments == Stored(approved.arguments)
      && spec.name == d.actionName && spec.targetId == d.targetId
      && lib.parse(d.address).Some? && spec.address == lib.write(lib.parse(d.address).value)
      && "port" in approved.arguments && approved.arguments["port"] == Number(spec.port)
      && RunnerAccepts(spec.argv, spec.timeout)
      && (spec.address == approved.address ==> CommandSays(spec.argv, approved))
  {
    RenderedArgumentsAreExact(lib, d.actionName, d.arguments, d.targetId, d.address);
    MatchIsStoredIffExact(d.arguments, approved.arguments);
    RenderedScope(lib, d.actionName, d.arguments, d.targetId, d.address);
    RenderedActionRuns(lib, d.actionName, d.arguments, d.targetId, d.address);
    RenderedCommandReads(lib, d.actionName, d.arguments, d.targetId, d.address);
    assert LooselyEqual(d.arguments["port"], approved.arguments["port"]);
    if "timeout_seconds" in approved.arguments {
      assert LooselyEqual(d.arguments["timeout_seconds"], approved.arguments["timeout_seconds"]);
    }
  }

  // ---------------------------------------------------------------- which dispatches render

  ghost predicate PrivateBy(rules: Rules, lib: AddressLibrary) {
    forall text :: rules.isPrivate(text) <==> ValidatePrivateTarget(lib, text).Some?
  }

  /** Loose equality with a number in range leaves one way to be rendered: as that whole number. */
  lemma ExactIsBetween(loaded: Json, value: Value, low: int, high: int)
    requires LooselyEqual(loaded, value) && NumberBetween(value, low, high)
    ensures IntBetween(loaded, low, high) <==> loaded.Str? || loaded.Int?
  {
  }

  lemma MatchingExactRenders(lib: AddressLibrary, name: string, loaded: Loaded, checked: Arguments, targetId: string,
                             address: string)
    requires InRegistry(name, checked, targetId) && Matches(loaded, checked)
    requires ValidatePrivateTarget(lib, address).Some?
    requires IsExact(loaded) && IsTargetId(targetId) && '%' !in address
    ensures RenderFixedAction(lib, name, loaded, targetId, address).Some?
  {
    AddressTestsAgree(lib, address);
    ExactIsBetween(loaded["port"], checked["port"], 1, 65535);
    if name == TCP_CONNECTION {
      ExactIsBetween(loaded["timeout_seconds"], checked["timeout_seconds"], 1, 10);
    }
  }

  /** Of every dispatch of every run, over the program's own validation and address test: a command is
      rendered for it exactly when its numbers are whole numbers written as such, its target id has the
      fixed alphabet, and its address has no zone. */
  lemma DispatchRendersExactly(rules: Rules, read: (string, Id) -> Option<StoredProposal>, lib: AddressLibrary,
                               s: State, moves: seq<Move>)
    requires ValidatesBy(rules, read) && PrivateBy(rules, lib) && Initial(s) && Runs(rules, s, moves)
    ensures forall d <- Exec(rules, s, moves).dispatches ::
      RenderFixedAction(lib, d.actionName, d.arguments, d.targetId, d.address).Some? <==>
        IsExact(d.arguments) && IsTargetId(d.targetId) && '%' !in d.address
  {
    EveryDispatchIsInRegistry(rules, read, s, moves);
    forall d <- Exec(rules, s, moves).dispatches
      ensures RenderFixedAction(lib, d.actionName, d.arguments, d.targetId, d.address).Some? <==>
        IsExact(d.arguments) && IsTargetId(d.targetId) && '%' !in d.address
    {
      if RenderFixedAction(lib, d.actionName, d.arguments, d.targetId, d.address).Some? {
        RenderedArgumentsAreExact(lib, d.actionName, d.arguments, d.targetId, d.address);
        RenderedScope(lib, d.actionName, d.arguments, d.targetId, d.address);
      } else if IsExact(d.arguments) && IsTargetId(d.targetId) && '%' !in d.address {
        MatchingExactRenders(lib, d.actionName, d.arguments, d.checked, d.targetId, d.address);
      }
    }
  }

  // ---------------------------------------------------------------- how exactly arguments are kept

  /** Of every dispatch of every run: its arguments are those stored at the claim of what was approved
      exactly when its numbers are whole numbers written as such. */
  lemma DispatchIsExactIffItsNumbersAre(rules: Rules, s: State, moves: seq<Move>)
    requires forall scope :: rules.hash(scope) == ProtectedHash(scope)
    requires Initial(s) && Runs(rules, s, moves)
    ensures var t := Exec(rules, s, moves);
      forall d <- t.dispatches :: d.approvalId in t.decided
        && (d.arguments == Stored(t.decided[d.approvalId].scope.arguments) <==> IsExact(d.arguments))
  {
    DispatchMatchesApprovedText(rules, s, moves);
    var t := Exec(rules, s, moves);
    forall d <- t.dispatches
      ensures d.arguments == Stored(t.decided[d.approvalId].scope.arguments) <==> IsExact(d.arguments)
    {
      MatchIsStoredIffExact(d.arguments, t.decided[d.approvalId].scope.arguments);
    }
  }

  /** Rewriting the arguments of one action row. */
  function RewriteArguments(store: Store, actionId: Id, loaded: Loaded): Move
    requires actionId in store.actions
  {
    Tamper(store.sessions, store.targets, store.proposals, store.policies,
           map[actionId := (store.actions[actionId].name, Some(loaded))])
  }

  /** The inexact case is reached: after a claim, any arguments that compare equal to the validated ones
      can be written into the action row, and the undisturbed run dispatches them as they were written. */
  lemma RewrittenArgumentsAreDispatched(rules: Rules, s: State, w: nat, loaded: Loaded) returns (moves: seq<Move>)
    requires Valid(s, w) && s.workers[w].pc.Claimed? && s.workers[w].job.RunJob?
    requires s.fenceLock.None? && s.writeLock.None? && !s.stopped && MayStart(rules, s.store, s.clock, s.workers[w])
    requires var job := s.workers[w].job;
      Matches(loaded, DecisionContext(rules, s.store, job.sessionId, job.proposalId, s.clock).value.validated.arguments)
    ensures s.workers[w].actionId in s.store.actions
    ensures var rewrite := RewriteArguments(s.store, s.workers[w].actionId, loaded);
      && Enabled(rules, s, rewrite) && Runs(rules, Step(rules, s, rewrite), moves)
      && var t := Exec(rules, Step(rules, s, rewrite), moves);
      && |t.dispatches| == |s.dispatches| + 1
      && t.dispatches[|s.dispatches|].actionId == s.workers[w].actionId
      && t.dispatches[|s.dispatches|].arguments == loaded
  {
    var t := Step(rules, s, RewriteArguments(s.store, s.workers[w].actionId, loaded));
    RewriteKeepsAuthority(rules, s, w, loaded);
    moves := ClaimedRunIsDispatched(rules, t, w);
  }

  lemma RewriteKeepsAuthority(rules: Rules, s: State, w: nat, loaded: Loaded)
    requires Valid(s, w) && s.workers[w].job.RunJob? && s.writeLock.None?
    requires MayStart(rules, s.store, s.clock, s.workers[w])
    requires var job := s.workers[w].job;
      Matches(loaded, DecisionContext(rules, s.store, job.sessionId, job.proposalId, s.clock).value.validated.arguments)
    ensures var t := Step(rules, s, RewriteArguments(s.store, s.workers[w].actionId, loaded));
      && t.workers == s.workers && t.clock == s.clock && MayStart(rules, t.store, t.clock, t.workers[w])
      && t.store.actions[s.workers[w].actionId].arguments == Some(loaded)
  {
    var t := Step(rules, s, RewriteArguments(s.store, s.workers[w].actionId, loaded));
    var job := s.workers[w].job;
    assert DecisionContext(rules, t.store, job.sessionId, job.proposalId, s.clock)
      == DecisionContext(rules, s.store, job.sessionId, job.proposalId, s.clock);
  }
}
