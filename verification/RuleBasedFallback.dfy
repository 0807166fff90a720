/** The deterministic fallback that proposes a step without a model. */
module RuleBasedFallback {
  import opened Wrappers
  import opened JsonValues
  import opened Recommendation
  import opened ActionNames
  import opened Registry
  import opened TextOrder

  function FindingId(finding: Finding): string {
    finding.id
  }

  function SortById(findings: seq<Finding>): seq<Finding> {
    SortBy(FindingId, findings)
  }

  /** Sorting keeps the findings. */
  lemma SortedFindingsAreTheirs(findings: seq<Finding>)
    ensures forall f <- SortById(findings) :: f in findings
  {
    SortBySorts(FindingId, findings);
    forall f | f in SortById(findings) ensures f in findings {
      assert f in multiset(SortById(findings));
    }
  }

  // ---------------------------------------------------------------- one finding

  function Lower(c: char): char {
    if 'A' <= c <= 'Z' then (c as int + 32) as char else c
  }

  /** Case is folded for ASCII letters, the only ones that occur in the service names. */
  function ToLower(s: string): string {
    seq(|s|, i requires 0 <= i < |s| => Lower(s[i]))
  }

  function ServiceAction(service: string): Option<string> {
    if service == "http" then Some(HTTP_HEADERS)
    else if service == "https" || service == "ssl" then Some(TLS_CERTIFICATE)
    else if service == "ssh" then Some(TCP_CONNECTION)
    else None
  }

  function StateText(state: EvidenceState): string {
    match state
    case Observed => "observed"
    case Inferred => "inferred"
    case Verified => "verified"
  }

  function KnownValue(context: RecommendationContext, finding: Finding, kind: ArgumentKind): Option<Json> {
    match kind
    case TargetIdKind => Some(Str(context.targetId))
    case PortKind => Some(Int(finding.port))
    case ProtocolKind => Some(Str(finding.protocol))
    case FindingIdKind => Some(Str(finding.id))
    case _ => None
  }

  /** The arguments known for a finding, or None when a required one is not known. */
  function FillArguments(context: RecommendationContext, finding: Finding,
                         constraints: seq<Constraint>): Option<map<string, Json>> {
    if constraints == [] then Some(map[])
    else
      var before := FillArguments(context, finding, constraints[..|constraints| - 1]);
      var last := constraints[|constraints| - 1];
      var value := KnownValue(context, finding, last.kind);
      if before.None? || (value.None? && last.required) then None
      else if value.None? then before
      else Some(before.value[last.name := value.value])
  }

  function Service(finding: Finding): string {
    if finding.serviceHint.None? then "" else ToLower(finding.serviceHint.value)
  }

  /** The step proposed for one finding, if it has a matching offered action with known arguments. */
  function StepFor(context: RecommendationContext, finding: Finding): Option<ProposedStep> {
    var service := Service(finding);
    var name := ServiceAction(service);
    if name.None? then None
    else
      var action := LookupAction(context.allowedActions, name.value);
      if action.None? then None
      else
        match FillArguments(context, finding, action.value.constraints)
        case None => None
        case Some(arguments) => Some(ProposedStep(ActionProposal, [finding.id], name, arguments,
          "The " + service + " service is " + StateText(finding.state)
            + " evidence and has a matching fixed learning action.",
          "Learn what a limited " + service + " check can and cannot show.",
          None))
  }

  const MORE_EVIDENCE_STEP := ProposedStep(MoreEvidence, [], None, map[],
    "No supplied finding has a matching fixed action with complete arguments.",
    "Collect enough normalized evidence to choose a safe next step.",
    Some("Import a normalized scan result or enable a matching registered action."))

  function FirstStep(context: RecommendationContext, findings: seq<Finding>): ProposedStep {
    if findings == [] then MORE_EVIDENCE_STEP
    else if StepFor(context, findings[0]).Some? then StepFor(context, findings[0]).value
    else FirstStep(context, findings[1..])
  }

  /** The inner loop: what is known for each argument, unless a required one is not known. */
  method CollectArguments(context: RecommendationContext, finding: Finding, constraints: seq<Constraint>)
      returns (arguments: Option<map<string, Json>>)
    ensures arguments == FillArguments(context, finding, constraints)
  {
    var filled: map<string, Json> := map[];
    for c := 0 to |constraints|
      invariant FillArguments(context, finding, constraints[..c]) == Some(filled)
    {
      assert constraints[..c + 1][..c] == constraints[..c];
      var value := KnownValue(context, finding, constraints[c].kind);
      if value.None? && constraints[c].required {
        FillStaysNone(context, finding, constraints, c + 1);
        return None;
      }
      if value.Some? {
        filled := filled[constraints[c].name := value.value];
      }
    }
    assert constraints[..|constraints|] == constraints;
    return Some(filled);
  }

  /** The outer loop, over the findings in id order. */
  method RecommendNextStep(context: RecommendationContext) returns (step: ProposedStep)
    ensures step == FirstStep(context, SortById(context.findings))
    ensures context.allowedActions == RECOMMENDATION_ACTIONS ==>
      && (step.kind.MoreEvidence? <==> forall f <- context.findings :: !IsUsable(f))
      && (step.kind.ActionProposal? ==>
            exists i: nat :: IsFirstUsable(context.findings, i) && Uses(step, context.findings[i], context.targetId))
  {
    if context.allowedActions == RECOMMENDATION_ACTIONS {
      RecommendsTheFirstUsable(context);
    }
    var sorted := SortById(context.findings);
    for i := 0 to |sorted|
      invariant FirstStep(context, sorted) == FirstStep(context, sorted[i..])
    {
      var finding := sorted[i];
      assert sorted[i..][0] == finding && sorted[i..][1..] == sorted[i + 1..];
      var service := Service(finding);
      var name := ServiceAction(service);
      if name.Some? {
        var action := LookupAction(context.allowedActions, name.value);
        if action.Some? {
          var arguments := CollectArguments(context, finding, action.value.constraints);
          if arguments.Some? {
            return ProposedStep(ActionProposal, [finding.id], name, arguments.value,
              "The " + service + " service is " + StateText(finding.state)
            + " evidence and has a matching fixed learning action.",
              "Learn what a limited " + service + " check can and cannot show.",
              None);
          }
        }
      }
    }
    return MORE_EVIDENCE_STEP;
  }

  lemma {:induction false} FillStaysNone(context: RecommendationContext, finding: Finding,
                                         constraints: seq<Constraint>, n: nat)
    requires n <= |constraints| && FillArguments(context, finding, constraints[..n]).None?
    ensures FillArguments(context, finding, constraints).None?
    decreases |constraints| - n
  {
    if n == |constraints| {
      assert constraints[..n] == constraints;
    } else {
      assert constraints[..n + 1][..n] == constraints[..n];
      FillStaysNone(context, finding, constraints, n + 1);
    }
  }

  // ---------------------------------------------------------------- the theorems

  /** The order of the findings does not matter when their ids are unique. */
  lemma FallbackIgnoresOrder(context: RecommendationContext, other: RecommendationContext)
    requires UniqueFindingIds(context.findings)
    requires other == context.(findings := other.findings) && multiset(other.findings) == multiset(context.findings)
    ensures FirstStep(other, SortById(other.findings)) == FirstStep(context, SortById(context.findings))
  {
    SortForgetsOrder(FindingId, context.findings, other.findings);
    SameStepForSameSession(context, other, SortById(context.findings));
  }

  lemma {:induction false} SameStepForSameSession(context: RecommendationContext, other: RecommendationContext,
        findings: seq<Finding>)
    requires other.targetId == context.targetId && other.allowedActions == context.allowedActions
    ensures FirstStep(other, findings) == FirstStep(context, findings)
  {
    if findings == [] {
    } else {
      SameStepForFinding(context, other, findings[0]);
      SameStepForSameSession(context, other, findings[1..]);
    }
  }

  lemma SameStepForFinding(context: RecommendationContext, other: RecommendationContext, finding: Finding)
    requires other.targetId == context.targetId && other.allowedActions == context.allowedActions
    ensures StepFor(other, finding) == StepFor(context, finding)
  {
    var name := ServiceAction(Service(finding));
    if name.Some? {
      var action := LookupAction(context.allowedActions, name.value);
      if action.Some? {
        SameArguments(context, other, finding, action.value.constraints);
      }
    }
  }

  lemma {:induction false} SameArguments(context: RecommendationContext, other: RecommendationContext,
                                         finding: Finding, constraints: seq<Constraint>)
    requires other.targetId == context.targetId
    ensures FillArguments(other, finding, constraints) == FillArguments(context, finding, constraints)
  {
    if constraints == [] {
    } else {
      SameArguments(context, other, finding, constraints[..|constraints| - 1]);
    }
  }

  /** What a finding and its session know for an argument kind. */
  predicate KnowsAs(context: RecommendationContext, finding: Finding, kind: ArgumentKind, value: Json) {
    || (kind == TargetIdKind && value == Str(context.targetId))
    || (kind == PortKind && value == Int(finding.port))
    || (kind == ProtocolKind && value == Str(finding.protocol))
    || (kind == FindingIdKind && value == Str(finding.id))
  }

  predicate IsKnownKind(kind: ArgumentKind) {
    kind == TargetIdKind || kind == PortKind || kind == ProtocolKind || kind == FindingIdKind
  }

  /** One argument for each constraint of a known kind, with the value known for it, and no other. */
  ghost predicate AreKnown(context: RecommendationContext, finding: Finding, constraints: seq<Constraint>,
                           arguments: map<string, Json>) {
    && (forall c <- constraints :: c.name in arguments <==> IsKnownKind(c.kind))
    && (forall c <- constraints :: c.name in arguments ==> KnowsAs(context, finding, c.kind, arguments[c.name]))
    && (forall name <- arguments :: exists c :: c in constraints && c.name == name)
  }

  lemma KnownValueIs(context: RecommendationContext, finding: Finding, kind: ArgumentKind)
    ensures KnownValue(context, finding, kind).Some? <==> IsKnownKind(kind)
    ensures IsKnownKind(kind) ==> KnowsAs(context, finding, kind, KnownValue(context, finding, kind).value)
  {
  }

  lemma OneMoreIsKnown(context: RecommendationContext, finding: Finding, constraints: seq<Constraint>,
                       before: map<string, Json>)
    requires UniqueNames(constraints) && constraints != []
    requires AreKnown(context, finding, constraints[..|constraints| - 1], before)
    ensures var last := constraints[|constraints| - 1]; var value := KnownValue(context, finding, last.kind);
      AreKnown(context, finding, constraints, if value.None? then before else before[last.name := value.value])
  {
    var n := |constraints| - 1;
    KnownValueIs(context, finding, constraints[n].kind);
    forall c <- constraints ensures c == constraints[n] || (c in constraints[..n] && c.name != constraints[n].name) {
      var i :| 0 <= i < |constraints| && constraints[i] == c;
      assert i < n ==> constraints[..n][i] == c;
    }
    assert constraints[n] in constraints;
    assert forall c <- constraints[..n] :: c in constraints;
    assert constraints[n].name !in before;
  }

  /** Arguments are found exactly when every required one is of a known kind, and then they are known. */
  lemma {:induction false} FilledArgumentsAre(context: RecommendationContext, finding: Finding,
                                              constraints: seq<Constraint>)
    requires UniqueNames(constraints)
    ensures var filled := FillArguments(context, finding, constraints);
      && (filled.Some? <==> forall c <- constraints :: c.required ==> IsKnownKind(c.kind))
      && (filled.Some? ==> AreKnown(context, finding, constraints, filled.value))
  {
    if constraints == [] {
    } else {
      var n := |constraints| - 1;
      var before := FillArguments(context, finding, constraints[..n]);
      FilledArgumentsAre(context, finding, constraints[..n]);
      KnownValueIs(context, finding, constraints[n].kind);
      assert constraints == constraints[..n] + [constraints[n]];
      if before.Some? {
        OneMoreIsKnown(context, finding, constraints, before.value);
      }
    }
  }

  lemma RegisteredArgumentsFilled(context: RecommendationContext, finding: Finding, constraints: seq<Constraint>)
    requires constraints == [TARGET_ARGUMENT, PORT_ARGUMENT]
          || constraints == [TARGET_ARGUMENT, PORT_ARGUMENT, TIMEOUT_ARGUMENT]
    ensures FillArguments(context, finding, constraints)
      == Some(map["target_id" := Str(context.targetId), "port" := Int(finding.port)])
  {
    var two := [TARGET_ARGUMENT, PORT_ARGUMENT];
    assert two[..1] == [TARGET_ARGUMENT] && [TARGET_ARGUMENT][..0] == [];
    assert FillArguments(context, finding, []) == Some(map[]);
    assert FillArguments(context, finding, [TARGET_ARGUMENT]) == Some(map["target_id" := Str(context.targetId)]);
    assert FillArguments(context, finding, two)
      == Some(map["target_id" := Str(context.targetId), "port" := Int(finding.port)]);
    if |constraints| == 3 {
      assert constraints[..2] == two;
    } else {
      assert constraints == two;
    }
  }

  lemma FallbackStepIsWellFormed(context: RecommendationContext, finding: Finding)
    requires context.allowedActions == RECOMMENDATION_ACTIONS && StepFor(context, finding).Some?
    ensures ValidStep(StepFor(context, finding).value)
  {
    RegistryNames();
    assert |StateText(finding.state)| == 8;
  }

  lemma FallbackStepIsChecked(context: RecommendationContext, finding: Finding)
    requires ValidContext(context) && context.allowedActions == RECOMMENDATION_ACTIONS
    requires finding in context.findings && UniqueFindingIds(context.findings)
    requires StepFor(context, finding).Some?
    ensures ValidAgainst(StepFor(context, finding).value, context)
  {
    StepPassesIffPortIsLast(context, finding);
    LastWithIdIs(context.findings, finding.id);
  }

  /** With the registered actions the fallback never raises: whatever the findings, it returns a
      well-formed step that the strict checks accept, and an action step becomes a proposal. */
  lemma FallbackNeverRaises(context: RecommendationContext)
    requires ValidContext(context) && context.allowedActions == RECOMMENDATION_ACTIONS
    requires UniqueFindingIds(context.findings)
    ensures var step := FirstStep(context, SortById(context.findings));
      && ValidStep(step) && ValidAgainst(step, context)
      && (step.kind.ActionProposal? ==> ValidateProviderRecommendation(step, context).Some?)
  {
    SortedFindingsAreTheirs(context.findings);
    FirstStepIsChecked(context, SortById(context.findings));
    var step := FirstStep(context, SortById(context.findings));
    if step.kind.ActionProposal? {
      CheckedStepBecomesProposal(step, context);
    }
  }

  lemma {:induction false} FirstStepIsChecked(context: RecommendationContext, findings: seq<Finding>)
    requires ValidContext(context) && context.allowedActions == RECOMMENDATION_ACTIONS
    requires UniqueFindingIds(context.findings) && forall f <- findings :: f in context.findings
    ensures ValidStep(FirstStep(context, findings)) && ValidAgainst(FirstStep(context, findings), context)
  {
    if findings == [] {
    } else {
      assert findings[0] in context.findings;
      if StepFor(context, findings[0]).Some? {
        FallbackStepIsWellFormed(context, findings[0]);
        FallbackStepIsChecked(context, findings[0]);
      } else {
        FirstStepIsChecked(context, findings[1..]);
      }
    }
  }

  // ---------------------------------------------------------------- when the fallback raises

  /** The first finding, in the order given, that a step can be built for. */
  function Chosen(context: RecommendationContext, findings: seq<Finding>): Option<Finding> {
    if findings == [] then None
    else if StepFor(context, findings[0]).Some? then Some(findings[0])
    else Chosen(context, findings[1..])
  }

  lemma {:induction false} FirstStepIsOfChosen(context: RecommendationContext, findings: seq<Finding>)
    ensures Chosen(context, findings).None? ==> FirstStep(context, findings) == MORE_EVIDENCE_STEP
    ensures Chosen(context, findings).Some? ==>
      && Chosen(context, findings).value in findings && StepFor(context, Chosen(context, findings).value).Some?
      && FirstStep(context, findings) == StepFor(context, Chosen(context, findings).value).value
  {
    if findings == [] {
    } else {
      FirstStepIsOfChosen(context, findings[1..]);
    }
  }

  /** The strict check looks a cited finding up by id, and of two under one id it takes the later. */
  function LastWithId(findings: seq<Finding>, id: string): Option<Finding> {
    if findings == [] then None
    else if findings[|findings| - 1].id == id then Some(findings[|findings| - 1])
    else LastWithId(findings[..|findings| - 1], id)
  }

  lemma {:induction false} LastWithIdIs(findings: seq<Finding>, id: string)
    ensures LastWithId(findings, id).Some? ==>
      LastWithId(findings, id).value in findings && LastWithId(findings, id).value.id == id
  {
    if findings == [] {
    } else {
      LastWithIdIs(findings[..|findings| - 1], id);
    }
  }

  lemma {:induction false} SupportingIsLast(findings: seq<Finding>, id: string)
    ensures Supporting(findings, [id]) ==
      if LastWithId(findings, id).None? then map[] else map[id := LastWithId(findings, id).value]
    ensures LastWithId(findings, id).Some? <==> id in FindingIds(findings)
  {
    if findings == [] {
    } else {
      var before := findings[..|findings| - 1];
      SupportingIsLast(before, id);
      assert findings == before + [findings[|findings| - 1]];
    }
  }

  /** The arguments of a fallback step, and where the strict check finds each of them. */
  lemma FallbackStepShape(context: RecommendationContext, finding: Finding)
    requires context.allowedActions == RECOMMENDATION_ACTIONS && StepFor(context, finding).Some?
    ensures var step := StepFor(context, finding).value;
      && step.kind.ActionProposal? && step.findingIds == [finding.id] && step.actionName.Some?
      && step.arguments == map["target_id" := Str(context.targetId), "port" := Int(finding.port)]
      && var action := LookupAction(context.allowedActions, step.actionName.value);
      && action.Some?
      && (forall c <- action.value.constraints :: c.required ==> c.name in step.arguments)
      && LookupConstraint(action.value.constraints, "target_id") == Some(TARGET_ARGUMENT)
      && LookupConstraint(action.value.constraints, "port") == Some(PORT_ARGUMENT)
  {
    var step := StepFor(context, finding).value;
    LookupRegistered(step.actionName.value);
    var constraints := LookupAction(RECOMMENDATION_ACTIONS, step.actionName.value).value.constraints;
    RegisteredArgumentsFilled(context, finding, constraints);
    LookupRegisteredArgument(constraints, "target_id");
    LookupRegisteredArgument(constraints, "port");
  }

  /** A fallback step passes the strict check exactly when its port does. */
  lemma StepPassesIffPortDoes(context: RecommendationContext, finding: Finding)
    requires ValidContext(context) && context.allowedActions == RECOMMENDATION_ACTIONS
    requires finding in context.findings && StepFor(context, finding).Some?
    ensures ValidAgainst(StepFor(context, finding).value, context)
      <==> ValidArgument(Int(finding.port), PORT_ARGUMENT, context, Supporting(context.findings, [finding.id]))
  {
    FallbackStepShape(context, finding);
    assert ValidArgument(Str(context.targetId), TARGET_ARGUMENT, context, Supporting(context.findings, [finding.id]));
  }

  /** For every context over the registered actions: the step built for a finding passes its own final
      validation exactly when the last finding with that id has the same port. */
  lemma StepPassesIffPortIsLast(context: RecommendationContext, finding: Finding)
    requires ValidContext(context) && context.allowedActions == RECOMMENDATION_ACTIONS
    requires finding in context.findings && StepFor(context, finding).Some?
    ensures LastWithId(context.findings, finding.id).Some?
    ensures ValidAgainst(StepFor(context, finding).value, context)
      <==> LastWithId(context.findings, finding.id).value.port == finding.port
  {
    StepPassesIffPortDoes(context, finding);
    SupportingIsLast(context.findings, finding.id);
    assert ValidFinding(finding);
    assert finding.id in Supporting(context.findings, [finding.id]);
  }

  /** So the fallback raises exactly when the finding it chooses shares its id with a later one, in the
      context's own order, that has another port. */
  lemma FallbackRaisesExactlyOnSharedId(context: RecommendationContext)
    requires ValidContext(context) && context.allowedActions == RECOMMENDATION_ACTIONS
    ensures var chosen := Chosen(context, SortById(context.findings));
      !ValidAgainst(FirstStep(context, SortById(context.findings)), context) <==>
        && chosen.Some?
        && LastWithId(context.findings, chosen.value.id).Some?
        && LastWithId(context.findings, chosen.value.id).value.port != chosen.value.port
  {
    SortedFindingsAreTheirs(context.findings);
    FirstStepIsOfChosen(context, SortById(context.findings));
    var chosen := Chosen(context, SortById(context.findings));
    if chosen.Some? {
      StepPassesIffPortIsLast(context, chosen.value);
    }
  }

  // ---------------------------------------------------------------- what is recommended

  /** The text is `lower` but perhaps in capitals. */
  predicate Spells(text: string, lower: string) {
    |text| == |lower| && forall i | 0 <= i < |text| ::
      text[i] == lower[i] || ('a' <= lower[i] <= 'z' && text[i] as int == lower[i] as int - 32)
  }

  predicate OffersService(finding: Finding, service: string) {
    finding.serviceHint.Some? && Spells(finding.serviceHint.value, service)
  }

  predicate IsUsable(finding: Finding) {
    || OffersService(finding, "http") || OffersService(finding, "https")
    || OffersService(finding, "ssl") || OffersService(finding, "ssh")
  }

  /** No finding that could be used has a lower id, or the same id and an earlier place. */
  ghost predicate IsFirstUsable(findings: seq<Finding>, i: nat) {
    && i < |findings| && IsUsable(findings[i])
    && forall j | 0 <= j < |findings| && IsUsable(findings[j]) ::
      AtMost(findings[i].id, findings[j].id) && (findings[j].id == findings[i].id ==> i <= j)
  }

  /** The action for the service of the finding, on its port of the session's target, citing it. */
  predicate Uses(step: ProposedStep, finding: Finding, targetId: string) {
    && step.kind.ActionProposal? && step.findingIds == [finding.id] && step.evidenceNeeded.None?
    && (step.actionName == Some("inspect_http_headers") <==> OffersService(finding, "http"))
    && (step.actionName == Some("inspect_tls_certificate") <==>
          OffersService(finding, "https") || OffersService(finding, "ssl"))
    && (step.actionName == Some("check_tcp_connection") <==> OffersService(finding, "ssh"))
    && step.arguments == map["target_id" := Str(targetId), "port" := Int(finding.port)]
  }

  lemma SpellsIsLower(text: string, lower: string)
    requires forall c <- lower :: 'a' <= c <= 'z'
    ensures ToLower(text) == lower <==> Spells(text, lower)
  {
    if ToLower(text) == lower {
      forall i | 0 <= i < |text|
        ensures text[i] == lower[i] || ('a' <= lower[i] <= 'z' && text[i] as int == lower[i] as int - 32)
      {
        assert ToLower(text)[i] == lower[i];
      }
    }
    if Spells(text, lower) {
      forall i | 0 <= i < |text| ensures ToLower(text)[i] == lower[i] {
        assert lower[i] in lower;
      }
    }
  }

  lemma ServiceIs(finding: Finding, service: string)
    requires service != "" && forall c <- service :: 'a' <= c <= 'z'
    ensures Service(finding) == service <==> OffersService(finding, service)
  {
    if finding.serviceHint.Some? {
      SpellsIsLower(finding.serviceHint.value, service);
    }
  }

  /** A step can be built exactly for a usable finding, and it uses that finding. */
  lemma StepForUses(context: RecommendationContext, finding: Finding)
    requires context.allowedActions == RECOMMENDATION_ACTIONS
    ensures StepFor(context, finding).Some? <==> IsUsable(finding)
    ensures IsUsable(finding) ==> Uses(StepFor(context, finding).value, finding, context.targetId)
  {
    ServiceIs(finding, "http");
    ServiceIs(finding, "https");
    ServiceIs(finding, "ssl");
    ServiceIs(finding, "ssh");
    RegistryNames();
    var name := ServiceAction(Service(finding));
    if name.Some? {
      LookupRegistered(name.value);
      RegisteredArgumentsFilled(context, finding, LookupAction(RECOMMENDATION_ACTIONS, name.value).value.constraints);
    }
  }

  lemma {:induction false} ChosenOfInserted(context: RecommendationContext, finding: Finding, sorted: seq<Finding>)
    requires Sorted(FindingId, sorted)
    ensures var rest := Chosen(context, sorted);
      Chosen(context, Insert(FindingId, finding, sorted)) ==
        if StepFor(context, finding).Some? && (rest.None? || AtMost(finding.id, rest.value.id)) then Some(finding)
        else rest
  {
    if sorted == [] {
    } else if AtMost(finding.id, sorted[0].id) {
      assert ([finding] + sorted)[1..] == sorted;
      ChosenIsLater(context, sorted);
      if Chosen(context, sorted).Some? {
        AtMostTransitive(finding.id, sorted[0].id, Chosen(context, sorted).value.id);
      }
    } else {
      var rest := Insert(FindingId, finding, sorted[1..]);
      assert ([sorted[0]] + rest)[1..] == rest;
      ChosenOfInserted(context, finding, sorted[1..]);
    }
  }

  lemma ChosenIsLater(context: RecommendationContext, sorted: seq<Finding>)
    requires Sorted(FindingId, sorted) && sorted != []
    ensures Chosen(context, sorted).Some? ==> AtMost(sorted[0].id, Chosen(context, sorted).value.id)
  {
    FirstStepIsOfChosen(context, sorted);
    AtMostTotal(sorted[0].id, sorted[0].id);
  }

  lemma HeadIsFirstUsable(findings: seq<Finding>, j: nat)
    requires findings != [] && IsUsable(findings[0])
    requires (forall f <- findings[1..] :: !IsUsable(f))
          || (IsFirstUsable(findings[1..], j) && AtMost(findings[0].id, findings[1..][j].id))
    ensures IsFirstUsable(findings, 0)
  {
    var others := findings[1..];
    AtMostTotal(findings[0].id, findings[0].id);
    forall k | 0 <= k < |findings| && IsUsable(findings[k]) ensures AtMost(findings[0].id, findings[k].id) {
      if k > 0 {
        assert findings[k] == others[k - 1] && others[k - 1] in others;
        AtMostTransitive(findings[0].id, others[j].id, findings[k].id);
      }
    }
  }

  lemma TailIsFirstUsable(findings: seq<Finding>, j: nat)
    requires findings != [] && IsFirstUsable(findings[1..], j)
    requires !(IsUsable(findings[0]) && AtMost(findings[0].id, findings[1..][j].id))
    ensures IsFirstUsable(findings, j + 1)
  {
    var others := findings[1..];
    AtMostTotal(findings[0].id, others[j].id);
    forall k | 0 <= k < |findings| && IsUsable(findings[k])
      ensures AtMost(findings[j + 1].id, findings[k].id) && (findings[k].id == findings[j + 1].id ==> j + 1 <= k)
    {
      assert k > 0 ==> findings[k] == others[k - 1];
    }
  }

  /** Going through the findings in id order comes to the first usable one. */
  lemma {:induction false} ChosenIsFirstUsable(context: RecommendationContext, findings: seq<Finding>)
      returns (i: nat)
    requires context.allowedActions == RECOMMENDATION_ACTIONS
    ensures Chosen(context, SortById(findings)).None? ==> forall f <- findings :: !IsUsable(f)
    ensures Chosen(context, SortById(findings)).Some? ==>
      IsFirstUsable(findings, i) && Chosen(context, SortById(findings)).value == findings[i]
  {
    i := 0;
    if findings == [] {
    } else {
      var first, others := findings[0], findings[1..];
      SortBySorts(FindingId, others);
      ChosenOfInserted(context, first, SortById(others));
      StepForUses(context, first);
      var rest := Chosen(context, SortById(others));
      var j := ChosenIsFirstUsable(context, others);
      assert SortById(findings) == Insert(FindingId, first, SortById(others));
      if IsUsable(first) && (rest.None? || AtMost(first.id, rest.value.id)) {
        HeadIsFirstUsable(findings, j);
      } else if rest.Some? {
        TailIsFirstUsable(findings, j);
        i := j + 1;
      } else {
        assert findings == [first] + others;
      }
    }
  }

  /** With the registered actions: the step asks for more evidence exactly when no finding has one of the four
      services, and otherwise it is the action for the service of the first usable finding in id order, on
      the port of that finding. */
  lemma RecommendsTheFirstUsable(context: RecommendationContext)
    requires context.allowedActions == RECOMMENDATION_ACTIONS
    ensures var step := FirstStep(context, SortById(context.findings));
      && (step.kind.MoreEvidence? <==> forall f <- context.findings :: !IsUsable(f))
      && (step.kind.ActionProposal? ==>
            exists i: nat :: IsFirstUsable(context.findings, i) && Uses(step, context.findings[i], context.targetId))
  {
    var i := ChosenIsFirstUsable(context, context.findings);
    FirstStepIsOfChosen(context, SortById(context.findings));
    if Chosen(context, SortById(context.findings)).Some? {
      StepForUses(context, context.findings[i]);
    }
  }
}
