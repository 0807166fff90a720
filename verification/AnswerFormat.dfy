/** The answer format compiled from a recommendation context. */
module AnswerFormat {
  import opened Wrappers
  import opened JsonSchema
  import opened JsonValues
  import opened Recommendation

  /** The values a session knows for an argument kind, or None when the kind has no fixed values. */
  function KnownValues(context: RecommendationContext, kind: ArgumentKind): Option<seq<Json>> {
    var findings := context.findings;
    match kind
    case TargetIdKind => Some([Str(context.targetId)])
    case FindingIdKind => Some(seq(|findings|, i requires 0 <= i < |findings| => Str(findings[i].id)))
    case PortKind => Some(seq(|findings|, i requires 0 <= i < |findings| => Int(findings[i].port)))
    case ProtocolKind => Some(seq(|findings|, i requires 0 <= i < |findings| => Str(findings[i].protocol)))
    case _ => None
  }

  predicate Allowed(constraint: Constraint, value: Json) {
    (value.Int? ==> WithinBounds(constraint, value.n)) && IsChoice(constraint, value)
  }

  function AllowedValues(constraint: Constraint, values: seq<Json>): seq<Json> {
    if values == [] then []
    else
      var rest := AllowedValues(constraint, values[1..]);
      if Allowed(constraint, values[0]) then [values[0]] + rest else rest
  }

  /** The format of one argument, or None when no value would be accepted. */
  function ArgumentRule(context: RecommendationContext, constraint: Constraint): Option<Schema> {
    var known := KnownValues(context, constraint.kind);
    if known.Some? then
      var values := AllowedValues(constraint, known.value);
      if values == [] then None else Some(Enum(values))
    else if constraint.choices != [] then
      Some(Enum(seq(|constraint.choices|, i requires 0 <= i < |constraint.choices| => Str(constraint.choices[i]))))
    else if constraint.kind.StringKind? then Some(StringType(1, 256))
    else Some(IntegerType(constraint.minimum, constraint.maximum))
  }

  datatype Collected = Collected(properties: map<string, Schema>, required: set<string>)

  /** The properties of one action, or None when a required argument has no acceptable value. */
  function Collect(context: RecommendationContext, constraints: seq<Constraint>): Option<Collected> {
    if constraints == [] then Some(Collected(map[], {}))
    else
      var before := Collect(context, constraints[..|constraints| - 1]);
      var last := constraints[|constraints| - 1];
      if before.None? then None
      else
        match ArgumentRule(context, last)
        case None => if last.required then None else before
        case Some(rule) => Some(Collected(
          before.value.properties[last.name := rule],
          if last.required then before.value.required + {last.name} else before.value.required))
  }

  function AnswerShape(kind: ProposalKind, cited: Schema, actionName: Schema, arguments: Schema,
                       evidence: Schema): Schema {
    ObjectType(map[
      "kind" := Const(Str(KindText(kind))),
      "finding_ids" := cited,
      "action_name" := actionName,
      "arguments" := arguments,
      "reason" := StringType(1, 1000),
      "learning_goal" := StringType(1, 500),
      "requires_approval" := Const(Bool(true)),
      "evidence_needed" := evidence], FIELDS)
  }

  function CitedIds(context: RecommendationContext, low: nat): Schema {
    if context.findings == [] then ArrayType(None, 0, 0)
    else ArrayType(Some(Enum(KnownValues(context, FindingIdKind).value)), low, 50)
  }

  function ActionShape(context: RecommendationContext, name: string, collected: Collected): Schema {
    AnswerShape(ActionProposal, CitedIds(context, 1), Const(Str(name)),
                ObjectType(collected.properties, collected.required), NullType)
  }

  function EvidenceShape(context: RecommendationContext): Schema {
    AnswerShape(MoreEvidence, CitedIds(context, 0), NullType, ObjectType(map[], {}), StringType(1, 500))
  }

  function ActionShapes(context: RecommendationContext, actions: seq<ActionDefinition>): seq<Schema> {
    if actions == [] then []
    else
      var before := ActionShapes(context, actions[..|actions| - 1]);
      var last := actions[|actions| - 1];
      var collected := Collect(context, last.constraints);
      if collected.None? then before else before + [ActionShape(context, last.name, collected.value)]
  }

  function FormatOf(context: RecommendationContext): Schema {
    var offered := if context.findings == [] then [] else ActionShapes(context, context.allowedActions);
    AnyOf(offered + [EvidenceShape(context)])
  }

  /** The inner loop: the properties of one action, unless a required argument has no value. */
  method CollectProperties(context: RecommendationContext, constraints: seq<Constraint>)
        returns (collected: Option<Collected>)
    ensures collected == Collect(context, constraints)
  {
    var properties: map<string, Schema> := map[];
    var required: set<string> := {};
    for c := 0 to |constraints|
      invariant Collect(context, constraints[..c]) == Some(Collected(properties, required))
    {
      assert constraints[..c + 1][..c] == constraints[..c];
      var rule := ArgumentRule(context, constraints[c]);
      if rule.None? {
        if constraints[c].required {
          CollectStaysNone(context, constraints, c + 1);
          return None;
        }
      } else {
        properties := properties[constraints[c].name := rule.value];
        if constraints[c].required {
          required := required + {constraints[c].name};
        }
      }
    }
    assert constraints[..|constraints|] == constraints;
    return Some(Collected(properties, required));
  }

  /** The outer loop; an action whose required argument has no value is left out. */
  method RecommendationSchema(context: RecommendationContext) returns (schema: Schema)
    ensures schema == FormatOf(context)
  {
    var shapes: seq<Schema> := [];
    if context.findings != [] {
      for a := 0 to |context.allowedActions|
        invariant shapes == ActionShapes(context, context.allowedActions[..a])
      {
        var action := context.allowedActions[a];
        assert context.allowedActions[..a + 1][..a] == context.allowedActions[..a];
        var collected := CollectProperties(context, action.constraints);
        if collected.Some? {
          shapes := shapes + [ActionShape(context, action.name, collected.value)];
        }
      }
      assert context.allowedActions[..|context.allowedActions|] == context.allowedActions;
    }
    schema := AnyOf(shapes + [EvidenceShape(context)]);
  }

  lemma {:induction false} CollectStaysNone(context: RecommendationContext, constraints: seq<Constraint>, n: nat)
    requires n <= |constraints| && Collect(context, constraints[..n]).None?
    ensures Collect(context, constraints).None?
    decreases |constraints| - n
  {
    if n == |constraints| {
      assert constraints[..n] == constraints;
    } else {
      assert constraints[..n + 1][..n] == constraints[..n];
      CollectStaysNone(context, constraints, n + 1);
    }
  }
}
