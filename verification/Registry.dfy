/** The registered actions, and the validation of untrusted proposals against them. */
module Registry {
  import opened Wrappers
  import opened JsonValues
  import opened Recommendation
  import opened ActionNames

  const TARGET_ARGUMENT := Constraint("target_id", TargetIdKind, true, None, None, [])
  const PORT_ARGUMENT := Constraint("port", PortKind, true, None, None, [])
  const TIMEOUT_ARGUMENT := Constraint("timeout_seconds", IntegerKind, false, Some(1), Some(10), [])

  const RECOMMENDATION_ACTIONS: seq<ActionDefinition> := [
    ActionDefinition(HTTP_HEADERS, [TARGET_ARGUMENT, PORT_ARGUMENT]),
    ActionDefinition(TLS_CERTIFICATE, [TARGET_ARGUMENT, PORT_ARGUMENT]),
    ActionDefinition(TCP_CONNECTION, [TARGET_ARGUMENT, PORT_ARGUMENT, TIMEOUT_ARGUMENT])]

  /** Wire data from a provider: the executable fields of an accepted step. */
  datatype AIProposal = AIProposal(
    findingIds: seq<string>, actionName: string, arguments: map<string, Json>, reason: string, learningGoal: string)

  predicate IntBetween(v: Json, low: int, high: int) {
    v.Int? && low <= v.n <= high
  }

  predicate HasTargetAndPort(arguments: map<string, Json>) {
    && "target_id" in arguments && arguments["target_id"].Str? && 1 <= |arguments["target_id"].s| <= 128
    && "port" in arguments && IntBetween(arguments["port"], 1, 65535)
  }

  /** The strict argument model of an action, defaults filled in; None when it is not met. */
  function ModelArguments(name: string, arguments: map<string, Json>): Option<map<string, Json>> {
    if !IsRegistered(name) || !HasTargetAndPort(arguments) then None
    else if name != TCP_CONNECTION then
      if arguments.Keys <= {"target_id", "port"} then Some(arguments) else None
    else if !(arguments.Keys <= {"target_id", "port", "timeout_seconds"}) then None
    else if "timeout_seconds" !in arguments then Some(arguments["timeout_seconds" := Int(5)])
    else if IntBetween(arguments["timeout_seconds"], 1, 10) then Some(arguments)
    else None
  }

  /** Checks action-specific values and binds the references to rows the backend owns. */
  function ValidateUntrusted(proposal: AIProposal, targetId: string, available: set<string>): Option<AIProposal> {
    var arguments := ModelArguments(proposal.actionName, proposal.arguments);
    if arguments.None? || arguments.value["target_id"] != Str(targetId) then None
    else if proposal.findingIds == [] || exists id <- proposal.findingIds :: id !in available then None
    else Some(proposal.(arguments := arguments.value))
  }

  /** The provider boundary: a step becomes a proposal only through both checks. */
  function ValidateProviderRecommendation(step: ProposedStep, context: RecommendationContext): Option<AIProposal> {
    if !ValidStep(step) || !ValidAgainst(step, context) || !step.kind.ActionProposal? || step.actionName.None? then None
    else
      var wire := AIProposal(step.findingIds, step.actionName.value, step.arguments, step.reason, step.learningGoal);
      ValidateUntrusted(wire, context.targetId, FindingIds(context.findings))
  }

  /** A validated proposal, stored and read back, validates to itself: the arguments that are hashed
      at approval are the ones that are hashed again before execution. */
  lemma ValidationIsStable(proposal: AIProposal, targetId: string, available: set<string>)
    requires ValidateUntrusted(proposal, targetId, available).Some?
    ensures var validated := ValidateUntrusted(proposal, targetId, available).value;
      && ValidateUntrusted(validated, targetId, available) == Some(validated)
      && validated.actionName == proposal.actionName
      && (forall name <- proposal.arguments :: name in validated.arguments
            && validated.arguments[name] == proposal.arguments[name])
  {
  }

  /** The three registered names, spelled out, and everything their arguments must be. */
  predicate IsAcceptable(proposal: AIProposal, targetId: string, available: set<string>) {
    var arguments := proposal.arguments;
    && (proposal.actionName == "inspect_http_headers" || proposal.actionName == "inspect_tls_certificate"
        || proposal.actionName == "check_tcp_connection")
    && "target_id" in arguments && arguments["target_id"] == Str(targetId) && 1 <= |targetId| <= 128
    && "port" in arguments && arguments["port"].Int? && 1 <= arguments["port"].n < 65536
    && (forall name <- arguments ::
          name == "target_id" || name == "port"
          || (name == "timeout_seconds" && proposal.actionName == "check_tcp_connection"
              && arguments[name].Int? && 1 <= arguments[name].n <= 10))
    && proposal.findingIds != [] && (forall id <- proposal.findingIds :: id in available)
  }

  /** A proposal passes exactly when its action is registered, its arguments are that action's with values in
      range, its target is the session's and it cites findings of the session; then it is unchanged, but for
      the five seconds that a connection check gets when it says nothing. */
  lemma ValidatesExactly(proposal: AIProposal, targetId: string, available: set<string>)
    ensures ValidateUntrusted(proposal, targetId, available).Some? <==> IsAcceptable(proposal, targetId, available)
    ensures IsAcceptable(proposal, targetId, available) ==>
      ValidateUntrusted(proposal, targetId, available) == Some(
        if proposal.actionName == "check_tcp_connection" && "timeout_seconds" !in proposal.arguments
        then proposal.(arguments := proposal.arguments["timeout_seconds" := Int(5)]) else proposal)
  {
    RegistryNames();
    var keys := proposal.arguments.Keys;
    assert keys <= {"target_id", "port"} <==>
        forall name <- proposal.arguments :: name == "target_id" || name == "port";
  }

  lemma RegistryNames()
    ensures IsName(HTTP_HEADERS) && IsName(TLS_CERTIFICATE) && IsName(TCP_CONNECTION)
    ensures HTTP_HEADERS != TLS_CERTIFICATE && HTTP_HEADERS != TCP_CONNECTION && TLS_CERTIFICATE != TCP_CONNECTION
  {
  }

  lemma LookupRegistered(name: string)
    ensures LookupAction(RECOMMENDATION_ACTIONS, name).Some? <==> IsRegistered(name)
    ensures IsRegistered(name) ==>
      LookupAction(RECOMMENDATION_ACTIONS, name).value.constraints ==
        if name == TCP_CONNECTION then [TARGET_ARGUMENT, PORT_ARGUMENT, TIMEOUT_ARGUMENT]
        else [TARGET_ARGUMENT, PORT_ARGUMENT]
    ensures IsRegistered(name)
      <==> name == "inspect_http_headers" || name == "inspect_tls_certificate" || name == "check_tcp_connection"
    ensures TARGET_ARGUMENT == Constraint("target_id", TargetIdKind, true, None, None, [])
    ensures PORT_ARGUMENT == Constraint("port", PortKind, true, None, None, [])
    ensures TIMEOUT_ARGUMENT == Constraint("timeout_seconds", IntegerKind, false, Some(1), Some(10), [])
  {
    RegistryNames();
    var actions := RECOMMENDATION_ACTIONS;
    assert actions[..2][..1] == actions[..1] && actions[..1][..0] == [];
    assert LookupAction(actions[..1], name) == if actions[0].name == name then Some(actions[0]) else None;
    assert LookupAction(actions[..2], name)
      == if actions[1].name == name then Some(actions[1]) else LookupAction(actions[..1], name);
  }

  /** Finding a registered argument by name. */
  lemma LookupRegisteredArgument(constraints: seq<Constraint>, name: string)
    requires constraints == [TARGET_ARGUMENT, PORT_ARGUMENT]
          || constraints == [TARGET_ARGUMENT, PORT_ARGUMENT, TIMEOUT_ARGUMENT]
    ensures LookupConstraint(constraints, name) ==
      if name == "target_id" then Some(TARGET_ARGUMENT)
      else if name == "port" then Some(PORT_ARGUMENT)
      else if name == "timeout_seconds" && |constraints| == 3 then Some(TIMEOUT_ARGUMENT)
      else None
  {
    var two := [TARGET_ARGUMENT, PORT_ARGUMENT];
    assert two[..1] == [TARGET_ARGUMENT];
    assert LookupConstraint([TARGET_ARGUMENT], name) == if name == "target_id" then Some(TARGET_ARGUMENT) else None;
    assert LookupConstraint(two, name)
      == if name == "port" then Some(PORT_ARGUMENT) else LookupConstraint([TARGET_ARGUMENT], name);
    if |constraints| == 3 {
      assert constraints[..2] == two;
    } else {
      assert constraints == two;
    }
  }

  lemma CheckedArgument(step: ProposedStep, context: RecommendationContext, constraints: seq<Constraint>, key: string)
    requires constraints == [TARGET_ARGUMENT, PORT_ARGUMENT]
          || constraints == [TARGET_ARGUMENT, PORT_ARGUMENT, TIMEOUT_ARGUMENT]
    requires key in step.arguments && LookupConstraint(constraints, key).Some?
    requires ValidArgument(step.arguments[key], LookupConstraint(constraints, key).value, context,
                           Supporting(context.findings, step.findingIds))
    ensures
      || (key == "target_id" && step.arguments[key] == Str(context.targetId))
      || (key == "port" && IntBetween(step.arguments[key], 1, 65535))
      || (key == "timeout_seconds" && |constraints| == 3 && IntBetween(step.arguments[key], 1, 10))
  {
    LookupRegisteredArgument(constraints, key);
  }

  lemma CheckedStepIsAcceptable(step: ProposedStep, context: RecommendationContext)
    requires ValidContext(context) && context.allowedActions == RECOMMENDATION_ACTIONS
    requires ValidStep(step) && ValidAgainst(step, context) && step.kind.ActionProposal?
    ensures step.actionName.Some?
    ensures var wire := AIProposal(step.findingIds, step.actionName.value, step.arguments, step.reason,
                                   step.learningGoal);
      IsAcceptable(wire, context.targetId, FindingIds(context.findings))
  {
    var name := step.actionName.value;
    LookupRegistered(name);
    var constraints := LookupAction(RECOMMENDATION_ACTIONS, name).value.constraints;
    assert constraints[0] in constraints && constraints[1] in constraints;
    forall key <- step.arguments ensures
        || (key == "target_id" && step.arguments[key] == Str(context.targetId))
        || (key == "port" && IntBetween(step.arguments[key], 1, 65535))
        || (key == "timeout_seconds" && |constraints| == 3 && IntBetween(step.arguments[key], 1, 10))
    {
      CheckedArgument(step, context, constraints, key);
    }
  }

  /** For the registered actions the second check adds nothing: every action step that the strict
      check accepts becomes a proposal. */
  lemma CheckedStepBecomesProposal(step: ProposedStep, context: RecommendationContext)
    requires ValidContext(context) && context.allowedActions == RECOMMENDATION_ACTIONS
    requires ValidStep(step) && ValidAgainst(step, context) && step.kind.ActionProposal?
    ensures ValidateProviderRecommendation(step, context).Some?
  {
    CheckedStepIsAcceptable(step, context);
    var wire := AIProposal(step.findingIds, step.actionName.value, step.arguments, step.reason, step.learningGoal);
    ValidatesExactly(wire, context.targetId, FindingIds(context.findings));
  }
}
