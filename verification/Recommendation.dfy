/** Recommendation contexts, proposed steps and the strict checks on them. */
module Recommendation {
  import opened Wrappers
  import opened JsonValues

  datatype ArgumentKind = TargetIdKind | PortKind | ProtocolKind | FindingIdKind | StringKind | IntegerKind

  datatype Constraint = Constraint(
    name: string, kind: ArgumentKind, required: bool,
    minimum: Option<int>, maximum: Option<int>, choices: seq<string>)

  datatype ActionDefinition = ActionDefinition(name: string, constraints: seq<Constraint>)

  datatype EvidenceState = Observed | Inferred | Verified

  /** The columns of a finding that recommendations read. */
  datatype Finding = Finding(id: string, state: EvidenceState, protocol: string, port: int, serviceHint: Option<string>)

  datatype RecommendationContext = RecommendationContext(
    targetId: string, findings: seq<Finding>, allowedActions: seq<ActionDefinition>)

  datatype ProposalKind = ActionProposal | MoreEvidence

  datatype ProposedStep = ProposedStep(
    kind: ProposalKind,
    findingIds: seq<string>,
    actionName: Option<string>,
    arguments: map<string, Json>,
    reason: string,
    learningGoal: string,
    evidenceNeeded: Option<string>)

  // ---------------------------------------------------------------- models

  predicate IsLower(c: char) {
    'a' <= c <= 'z'
  }

  /** A lower-case letter, then at most 63 lower-case letters, digits or underscores. */
  predicate IsName(s: string) {
    && 1 <= |s| <= 64 && IsLower(s[0])
    && forall i | 0 < i < |s| :: IsLower(s[i]) || '0' <= s[i] <= '9' || s[i] == '_'
  }

  ghost predicate UniqueNames(constraints: seq<Constraint>) {
    forall i, j | 0 <= i < |constraints| && 0 <= j < |constraints|
      && constraints[i].name == constraints[j].name :: i == j
  }

  ghost predicate ValidAction(action: ActionDefinition) {
    IsName(action.name) && UniqueNames(action.constraints)
  }

  predicate ValidFinding(finding: Finding) {
    1 <= finding.port <= 65535 && (finding.protocol == "tcp" || finding.protocol == "udp") && 1 <= |finding.id| <= 128
  }

  ghost predicate ValidContext(context: RecommendationContext) {
    && 1 <= |context.targetId| <= 128
    && (forall i | 0 <= i < |context.findings| :: ValidFinding(context.findings[i]))
    && (forall i | 0 <= i < |context.allowedActions| :: ValidAction(context.allowedActions[i]))
  }

  predicate BoundedText(s: string, low: nat, high: nat) {
    low <= |s| <= high
  }

  /** Field types and lengths, and the fields each kind must and must not have. */
  predicate ValidStep(step: ProposedStep) {
    && |step.findingIds| <= 50
    && (step.actionName.Some? ==> IsName(step.actionName.value))
    && BoundedText(step.reason, 1, 1000)
    && BoundedText(step.learningGoal, 1, 500)
    && (step.evidenceNeeded.Some? ==> |step.evidenceNeeded.value| <= 500)
    && match step.kind
       case ActionProposal => step.actionName.Some? && step.findingIds != [] && step.evidenceNeeded.None?
       case MoreEvidence =>
         step.actionName.None? && step.arguments == map[]
         && step.evidenceNeeded.Some? && step.evidenceNeeded.value != ""
  }

  // ---------------------------------------------------------------- the check against a context

  function FindingIds(findings: seq<Finding>): set<string> {
    set f <- findings :: f.id
  }

  /** A dictionary keyed by action name: of two equal names the later wins. */
  function LookupAction(actions: seq<ActionDefinition>, name: string): Option<ActionDefinition> {
    if actions == [] then None
    else if actions[|actions| - 1].name == name then Some(actions[|actions| - 1])
    else LookupAction(actions[..|actions| - 1], name)
  }

  function LookupConstraint(constraints: seq<Constraint>, name: string): Option<Constraint> {
    if constraints == [] then None
    else if constraints[|constraints| - 1].name == name then Some(constraints[|constraints| - 1])
    else LookupConstraint(constraints[..|constraints| - 1], name)
  }

  /** The cited findings, as a dictionary keyed by id. */
  function Supporting(findings: seq<Finding>, cited: seq<string>): map<string, Finding> {
    if findings == [] then map[]
    else
      var last := findings[|findings| - 1];
      var before := Supporting(findings[..|findings| - 1], cited);
      if last.id in cited then before[last.id := last] else before
  }

  /** Every cited id is there, under a finding of the context that has it. */
  lemma {:induction false} SupportingIs(findings: seq<Finding>, cited: seq<string>)
    ensures forall id <- Supporting(findings, cited) ::
      && id in cited && Supporting(findings, cited)[id] in findings && Supporting(findings, cited)[id].id == id
    ensures forall f <- findings :: f.id in cited ==> f.id in Supporting(findings, cited)
  {
    if findings == [] {
    } else {
      var n := |findings| - 1;
      SupportingIs(findings[..n], cited);
      forall f <- findings ensures f.id in cited ==> f.id in Supporting(findings, cited) {
        var i :| 0 <= i < |findings| && findings[i] == f;
        assert i < n ==> findings[..n][i] == f;
      }
    }
  }

  ghost predicate UniqueFindingIds(findings: seq<Finding>) {
    forall f, g | f in findings && g in findings && f.id == g.id :: f == g
  }

  predicate WithinBounds(constraint: Constraint, n: int) {
    && (constraint.minimum.Some? ==> constraint.minimum.value <= n)
    && (constraint.maximum.Some? ==> n <= constraint.maximum.value)
  }

  predicate IsChoice(constraint: Constraint, value: Json) {
    constraint.choices == [] || (value.Str? && value.s in constraint.choices)
  }

  predicate ValidKind(value: Json, constraint: Constraint, context: RecommendationContext, supporting: map<string,
                      Finding>) {
    match constraint.kind
    case TargetIdKind => value == Str(context.targetId)
    case FindingIdKind => value.Str? && value.s in supporting
    case PortKind => value.Int? && 1 <= value.n <= 65535 && exists id <- supporting :: supporting[id].port == value.n
    case ProtocolKind =>
      && (value == Str("tcp") || value == Str("udp"))
      && exists id <- supporting :: supporting[id].protocol == value.s
    case StringKind => value.Str? && 1 <= |value.s| <= 256
    case IntegerKind => value.Int?
  }

  predicate ValidArgument(value: Json, constraint: Constraint, context: RecommendationContext,
                          supporting: map<string, Finding>) {
    && ValidKind(value, constraint, context, supporting)
    && (value.Int? ==> WithinBounds(constraint, value.n))
    && IsChoice(constraint, value)
  }

  predicate ValidAgainst(step: ProposedStep, context: RecommendationContext) {
    && (forall id <- step.findingIds :: id in FindingIds(context.findings))
    && (step.kind.ActionProposal? ==>
          && step.actionName.Some?
          && var action := LookupAction(context.allowedActions, step.actionName.value);
          && action.Some?
          && var constraints := action.value.constraints;
          && var supporting := Supporting(context.findings, step.findingIds);
          && (forall c <- constraints :: c.required ==> c.name in step.arguments)
          && (forall name <- step.arguments ::
                var constraint := LookupConstraint(constraints, name);
                constraint.Some? && ValidArgument(step.arguments[name], constraint.value, context, supporting)))
  }

  // ---------------------------------------------------------------- steps as JSON

  const FIELDS: set<string> := {"kind", "finding_ids", "action_name", "arguments", "reason", "learning_goal",
                                "requires_approval", "evidence_needed"}

  function KindText(kind: ProposalKind): string {
    match kind
    case ActionProposal => "action"
    case MoreEvidence => "more_evidence"
  }

  function Texts(ids: seq<string>): seq<Json> {
    seq(|ids|, i requires 0 <= i < |ids| => Str(ids[i]))
  }

  function Nullable(text: Option<string>): Json {
    if text.None? then Null else Str(text.value)
  }

  /** A step with every field written out. */
  function ToJson(step: ProposedStep): Json {
    Obj(map[
      "kind" := Str(KindText(step.kind)),
      "finding_ids" := Arr(Texts(step.findingIds)),
      "action_name" := Nullable(step.actionName),
      "arguments" := Obj(step.arguments),
      "reason" := Str(step.reason),
      "learning_goal" := Str(step.learningGoal),
      "requires_approval" := Bool(true),
      "evidence_needed" := Nullable(step.evidenceNeeded)])
  }

  function ParseTexts(items: seq<Json>): Option<seq<string>> {
    if items == [] then Some([])
    else
      var rest := ParseTexts(items[1..]);
      if items[0].Str? && rest.Some? then Some([items[0].s] + rest.value) else None
  }

  predicate IsText(fields: map<string, Json>, name: string) {
    name in fields && fields[name].Str?
  }

  predicate IsNullableText(fields: map<string, Json>, name: string) {
    name in fields ==> fields[name].Str? || fields[name].Null?
  }

  function NullableText(fields: map<string, Json>, name: string): Option<string> {
    if name in fields && fields[name].Str? then Some(fields[name].s) else None
  }

  /** Reads an answer strictly: no unknown field, no conversion, defaults for what may be left out. */
  function ParseStep(v: Json): Option<ProposedStep> {
    if !v.Obj? || !(v.fields.Keys <= FIELDS) then None
    else if !IsText(v.fields, "kind") || !IsText(v.fields, "reason") || !IsText(v.fields, "learning_goal") then None
    else if v.fields["kind"].s != "action" && v.fields["kind"].s != "more_evidence" then None
    else if "requires_approval" !in v.fields || v.fields["requires_approval"] != Bool(true) then None
    else if !IsNullableText(v.fields, "action_name") || !IsNullableText(v.fields, "evidence_needed") then None
    else if "finding_ids" in v.fields && !v.fields["finding_ids"].Arr? then None
    else if "arguments" in v.fields && !v.fields["arguments"].Obj? then None
    else
      var ids := if "finding_ids" in v.fields then ParseTexts(v.fields["finding_ids"].items) else Some([]);
      if ids.None? then None
      else
        var step := ProposedStep(
          if v.fields["kind"].s == "action" then ActionProposal else MoreEvidence,
          ids.value,
          NullableText(v.fields, "action_name"),
          if "arguments" in v.fields then v.fields["arguments"].fields else map[],
          v.fields["reason"].s,
          v.fields["learning_goal"].s,
          NullableText(v.fields, "evidence_needed"));
        if ValidStep(step) then Some(step) else None
  }
}
