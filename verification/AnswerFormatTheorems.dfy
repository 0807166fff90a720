/** The answer format against the strict checks: each accepts what the other does, up to a
    condition on the arguments that no format can express. */
module AnswerFormatTheorems {
  import opened Wrappers
  import opened JsonSchema
  import opened JsonValues
  import opened Recommendation
  import opened AnswerFormat

  // ---------------------------------------------------------------- steps written out and read back

  lemma {:induction false} ParseTextsInverts(ids: seq<string>)
    ensures ParseTexts(Texts(ids)) == Some(ids)
  {
    if ids != [] {
      assert Texts(ids)[1..] == Texts(ids[1..]);
      ParseTextsInverts(ids[1..]);
      assert [ids[0]] + ids[1..] == ids;
    } else {
      assert Texts(ids) == [];
    }
  }

  /** Every well-formed step is read back unchanged from its written form. */
  lemma ParseInvertsToJson(step: ProposedStep)
    requires ValidStep(step)
    ensures ParseStep(ToJson(step)) == Some(step)
  {
    ParseTextsInverts(step.findingIds);
    var v := ToJson(step);
    assert v.fields.Keys == FIELDS;
  }

  lemma {:induction false} OnlyTextsParse(items: seq<Json>)
    requires ParseTexts(items).Some?
    ensures Texts(ParseTexts(items).value) == items
  {
    if items == [] {
    } else {
      OnlyTextsParse(items[1..]);
      var ids := ParseTexts(items).value;
      assert ids[1..] == ParseTexts(items[1..]).value && Texts(ids)[1..] == Texts(ids[1..]);
      assert Texts(ids) == [Texts(ids)[0]] + Texts(ids)[1..];
    }
  }

  /** What an answer may leave out, and what it then means. */
  const DEFAULTS: map<string, Json> := map[
    "finding_ids" := Arr([]), "action_name" := Null, "arguments" := Obj(map[]), "evidence_needed" := Null]

  lemma ReadAnswerIsWritten(v: Json)
    requires ParseStep(v).Some?
    ensures v.Obj? && Obj(DEFAULTS + v.fields) == ToJson(ParseStep(v).value)
  {
    var step := ParseStep(v).value;
    var all := DEFAULTS + v.fields;
    if "finding_ids" in v.fields {
      OnlyTextsParse(v.fields["finding_ids"].items);
    }
    assert Arr(Texts(step.findingIds)) == all["finding_ids"];
    assert all.Keys == FIELDS;
    assert all == ToJson(step).fields;
  }

  /** The fields of an answer, one by one, that is `step` written out but for defaults. */
  predicate SaysStep(fields: map<string, Json>, step: ProposedStep) {
    && fields.Keys <= FIELDS
    && "kind" in fields && fields["kind"] == Str(if step.kind.ActionProposal? then "action" else "more_evidence")
    && "reason" in fields && fields["reason"] == Str(step.reason)
    && "learning_goal" in fields && fields["learning_goal"] == Str(step.learningGoal)
    && "requires_approval" in fields && fields["requires_approval"] == Bool(true)
    && (if "finding_ids" in fields then fields["finding_ids"] == Arr(Texts(step.findingIds)) else step.findingIds == [])
    && (if "action_name" in fields then fields["action_name"] == Nullable(step.actionName) else step.actionName.None?)
    && (if "arguments" in fields then fields["arguments"] == Obj(step.arguments) else step.arguments == map[])
    && (if "evidence_needed" in fields then fields["evidence_needed"] == Nullable(step.evidenceNeeded)
        else step.evidenceNeeded.None?)
  }

  lemma MergedField(fields: map<string, Json>, all: map<string, Json>, k: string)
    requires DEFAULTS + fields == all && k in all
    ensures if k in fields then fields[k] == all[k] else k in DEFAULTS && DEFAULTS[k] == all[k]
  {
    assert all[k] == (DEFAULTS + fields)[k];
  }

  lemma WrittenFieldsAre(fields: map<string, Json>, step: ProposedStep)
    requires Obj(DEFAULTS + fields) == ToJson(step)
    ensures SaysStep(fields, step)
  {
    var all := ToJson(step).fields;
    assert fields.Keys <= all.Keys == FIELDS;
    MergedField(fields, all, "kind");
    MergedField(fields, all, "reason");
    MergedField(fields, all, "learning_goal");
    MergedField(fields, all, "requires_approval");
    MergedField(fields, all, "finding_ids");
    MergedField(fields, all, "action_name");
    MergedField(fields, all, "arguments");
    MergedField(fields, all, "evidence_needed");
    assert |Texts(step.findingIds)| == |step.findingIds|;
  }

  lemma WrittenAnswerIsRead(v: Json, step: ProposedStep)
    requires ValidStep(step) && v.Obj? && SaysStep(v.fields, step)
    ensures ParseStep(v) == Some(step)
  {
    ParseTextsInverts(step.findingIds);
  }

  /** Names are a lower-case letter followed by at most sixty-three lower-case letters, digits or underscores. */
  lemma NamesAre(s: string)
    ensures IsName(s) <==>
      && 0 < |s| < 65 && 'a' <= s[0] <= 'z'
      && forall i | 1 <= i < |s| :: 'a' <= s[i] <= 'z' || '0' <= s[i] <= '9' || s[i] == '_'
  {
  }

  /** The strict reader, exactly: an answer is read as a step if and only if the step is well-formed and the
      answer, with the four defaults filled in where it leaves them out, is that step written out.  So it
      refuses unknown fields, wrong types, and an answer that does not say that approval is required. */
  lemma ReadsExactlyWritten(v: Json, step: ProposedStep)
    ensures ParseStep(v) == Some(step) <==> ValidStep(step) && v.Obj? && Obj(DEFAULTS + v.fields) == ToJson(step)
    ensures ParseStep(v) == Some(step) ==> SaysStep(v.fields, step)
  {
    if ParseStep(v).Some? {
      ReadAnswerIsWritten(v);
      WrittenFieldsAre(v.fields, ParseStep(v).value);
    }
    if ValidStep(step) && v.Obj? && Obj(DEFAULTS + v.fields) == ToJson(step) {
      WrittenFieldsAre(v.fields, step);
      WrittenAnswerIsRead(v, step);
    }
    if ParseStep(v).Some? && v.Obj? && Obj(DEFAULTS + v.fields) == ToJson(step) {
      WrittenStepsDiffer(ParseStep(v).value, step);
    }
  }

  lemma WrittenStepsDiffer(a: ProposedStep, b: ProposedStep)
    requires ToJson(a) == ToJson(b)
    ensures a == b
  {
    var v, w := ToJson(a).fields, ToJson(b).fields;
    assert v["kind"] == w["kind"] && v["finding_ids"] == w["finding_ids"] && v["action_name"] == w["action_name"];
    assert v["arguments"] == w["arguments"] && v["reason"] == w["reason"] && v["learning_goal"] == w["learning_goal"];
    assert v["evidence_needed"] == w["evidence_needed"];
    ParseTextsInverts(a.findingIds);
    ParseTextsInverts(b.findingIds);
  }

  lemma {:induction false} ParsedTextsAre(items: seq<Json>)
    requires forall i | 0 <= i < |items| :: items[i].Str?
    ensures ParseTexts(items).Some? && |ParseTexts(items).value| == |items|
    ensures forall i | 0 <= i < |items| :: ParseTexts(items).value[i] == items[i].s
  {
    if items == [] {
    } else {
      ParsedTextsAre(items[1..]);
      forall i | 0 <= i < |items| ensures ParseTexts(items).value[i] == items[i].s {
        if i > 0 {
          assert items[i] == items[1..][i - 1];
        }
      }
    }
  }

  // ---------------------------------------------------------------- tables

  lemma {:induction false} LookupConstraintIs(constraints: seq<Constraint>, name: string)
    ensures LookupConstraint(constraints, name).Some? ==>
      LookupConstraint(constraints, name).value in constraints && LookupConstraint(constraints, name).value.name == name
    ensures LookupConstraint(constraints, name).None? ==> forall c <- constraints :: c.name != name
  {
    if constraints == [] {
    } else {
      var n := |constraints| - 1;
      LookupConstraintIs(constraints[..n], name);
      forall c | c in constraints ensures c == constraints[n] || c in constraints[..n] {
        var i :| 0 <= i < |constraints| && constraints[i] == c;
        assert i < n ==> constraints[..n][i] == c;
      }
    }
  }

  lemma LookupConstraintFinds(constraints: seq<Constraint>, c: Constraint)
    requires UniqueNames(constraints) && c in constraints
    ensures LookupConstraint(constraints, c.name) == Some(c)
  {
  }

  lemma {:induction false} LookupActionIs(actions: seq<ActionDefinition>, name: string)
    ensures LookupAction(actions, name).Some? ==>
      LookupAction(actions, name).value in actions && LookupAction(actions, name).value.name == name
    ensures LookupAction(actions, name).Some? ==>
      exists i :: 0 <= i < |actions| && LookupAction(actions, name).value == actions[i]
        && forall j | i < j < |actions| :: actions[j].name != name
    ensures LookupAction(actions, name).None? ==> forall a <- actions :: a.name != name
  {
    if actions == [] {
    } else {
      var n := |actions| - 1;
      LookupActionIs(actions[..n], name);
      assert actions[n].name == name ==> LookupAction(actions, name).value == actions[n];
      if actions[n].name != name && LookupAction(actions, name).Some? {
        var i :| 0 <= i < n && LookupAction(actions[..n], name).value == actions[..n][i]
          && forall j | i < j < n :: actions[..n][j].name != name;
        assert LookupAction(actions, name).value == actions[i];
        forall j | i < j < |actions| ensures actions[j].name != name {
          assert j < n ==> actions[j] == actions[..n][j];
        }
      }
      forall a | a in actions ensures a == actions[n] || a in actions[..n] {
        var i :| 0 <= i < |actions| && actions[i] == a;
        assert i < n ==> actions[..n][i] == a;
      }
    }
  }

  lemma {:induction false} AllowedValuesAre(constraint: Constraint, values: seq<Json>)
    ensures forall v :: v in AllowedValues(constraint, values) <==> v in values && Allowed(constraint, v)
  {
    if values == [] {
    } else {
      AllowedValuesAre(constraint, values[1..]);
      forall v ensures v in AllowedValues(constraint, values) <==> v in values && Allowed(constraint, v) {
        assert v in values <==> v == values[0] || v in values[1..];
      }
    }
  }

  // ---------------------------------------------------------------- one argument

  /** An argument refers only to cited findings. */
  ghost predicate CitesFinding(value: Json, constraint: Constraint, context: RecommendationContext,
                               cited: seq<string>) {
    match constraint.kind
    case FindingIdKind => value.Str? && value.s in cited
    case PortKind => value.Int? && exists f :: f in context.findings && f.id in cited && f.port == value.n
    case ProtocolKind => value.Str? && exists f :: f in context.findings && f.id in cited && f.protocol == value.s
    case _ => true
  }

  /** What no format says: numbers written as integers, and only cited findings referred to. */
  ghost predicate ExactArgument(value: Json, constraint: Constraint, context: RecommendationContext,
                                cited: seq<string>) {
    !value.Float? && CitesFinding(value, constraint, context, cited)
  }

  /** The two places where the format accepts values that the check refuses by type or length. */
  ghost predicate ChoicesFit(constraint: Constraint) {
    && (constraint.kind.IntegerKind? ==> constraint.choices == [])
    && (constraint.kind.StringKind? ==> forall c <- constraint.choices :: 1 <= |c| <= 256)
  }

  lemma KnownValuesAre(context: RecommendationContext, kind: ArgumentKind)
    requires KnownValues(context, kind).Some?
    ensures forall v :: v in KnownValues(context, kind).value <==>
      match kind
      case TargetIdKind => v == Str(context.targetId)
      case FindingIdKind => exists f :: f in context.findings && v == Str(f.id)
      case PortKind => exists f :: f in context.findings && v == Int(f.port)
      case ProtocolKind => exists f :: f in context.findings && v == Str(f.protocol)
      case _ => false
  {
    var values := KnownValues(context, kind).value;
    if !kind.TargetIdKind? {
      forall i | 0 <= i < |context.findings| ensures values[i] in values && context.findings[i] in context.findings {
      }
    }
  }

  lemma EnumAccepts(values: seq<Json>, v: Json)
    ensures v in values ==> Accepts(Enum(values), v)
    ensures Accepts(Enum(values), v) && !v.Float? && (forall w <- values :: !w.Float?) ==> v in values
  {
  }

  lemma EnumSound(values: seq<Json>, v: Json)
    requires Accepts(Enum(values), v)
    ensures exists w :: w in values && ScalarEqual(w, v)
  {
  }

  /** What the check accepts for an argument has a rule, and the rule accepts it. */
  lemma CheckedArgumentFitsRule(value: Json, constraint: Constraint, context: RecommendationContext, cited: seq<string>)
    requires ValidArgument(value, constraint, context, Supporting(context.findings, cited))
    ensures ArgumentRule(context, constraint).Some? && Accepts(ArgumentRule(context, constraint).value, value)
    ensures ExactArgument(value, constraint, context, cited)
  {
    SupportingIs(context.findings, cited);
    var supporting := Supporting(context.findings, cited);
    var known := KnownValues(context, constraint.kind);
    if known.Some? {
      KnownValuesAre(context, constraint.kind);
      if constraint.kind.PortKind? {
        var id :| id in supporting && supporting[id].port == value.n;
        assert supporting[id] in context.findings;
      } else if constraint.kind.ProtocolKind? {
        var id :| id in supporting && supporting[id].protocol == value.s;
        assert supporting[id] in context.findings;
      } else if constraint.kind.FindingIdKind? {
        assert supporting[value.s] in context.findings;
      }
      assert value in known.value;
      AllowedValuesAre(constraint, known.value);
      EnumAccepts(AllowedValues(constraint, known.value), value);
    } else if constraint.choices != [] {
      var texts := seq(|constraint.choices|, i requires 0 <= i < |constraint.choices| => Str(constraint.choices[i]));
      var i :| 0 <= i < |constraint.choices| && constraint.choices[i] == value.s;
      assert texts[i] == value;
      EnumAccepts(texts, value);
    }
  }

  /** Conversely, what the rule accepts passes the check exactly when it is exact. */
  lemma RuleFitsCheck(value: Json, constraint: Constraint, context: RecommendationContext, cited: seq<string>)
    requires ValidContext(context) && UniqueFindingIds(context.findings) && ChoicesFit(constraint)
    requires ArgumentRule(context, constraint).Some? && Accepts(ArgumentRule(context, constraint).value, value)
    requires ExactArgument(value, constraint, context, cited)
    ensures ValidArgument(value, constraint, context, Supporting(context.findings, cited))
  {
    SupportingIs(context.findings, cited);
    var known := KnownValues(context, constraint.kind);
    if known.Some? {
      var values := AllowedValues(constraint, known.value);
      KnownValuesAre(context, constraint.kind);
      AllowedValuesAre(constraint, known.value);
      EnumAccepts(values, value);
      assert value in known.value && Allowed(constraint, value);
      KnownValueFitsKind(value, constraint, context, cited);
    } else if constraint.choices != [] {
      var texts := seq(|constraint.choices|, i requires 0 <= i < |constraint.choices| => Str(constraint.choices[i]));
      EnumAccepts(texts, value);
      var i :| 0 <= i < |texts| && texts[i] == value;
      assert value.s == constraint.choices[i];
    }
  }

  lemma KnownValueFitsKind(value: Json, constraint: Constraint, context: RecommendationContext, cited: seq<string>)
    requires ValidContext(context) && UniqueFindingIds(context.findings)
    requires KnownValues(context, constraint.kind).Some? && value in KnownValues(context, constraint.kind).value
    requires CitesFinding(value, constraint, context, cited)
    ensures ValidKind(value, constraint, context, Supporting(context.findings, cited))
  {
    SupportingIs(context.findings, cited);
    KnownValuesAre(context, constraint.kind);
    var supporting := Supporting(context.findings, cited);
    if constraint.kind.PortKind? {
      var f :| f in context.findings && f.id in cited && f.port == value.n;
      assert supporting[f.id] == f && ValidFinding(f);
    } else if constraint.kind.ProtocolKind? {
      var f :| f in context.findings && f.id in cited && f.protocol == value.s;
      assert supporting[f.id] == f && ValidFinding(f);
    } else if constraint.kind.FindingIdKind? {
      var f :| f in context.findings && value == Str(f.id);
      assert f.id in supporting;
    }
  }

  // ---------------------------------------------------------------- one action

  lemma LastIsNew(constraints: seq<Constraint>)
    requires UniqueNames(constraints) && constraints != []
    ensures var n := |constraints| - 1;
      && (forall c <- constraints :: c == constraints[n] || c in constraints[..n])
      && (forall c <- constraints[..n] :: c in constraints && c.name != constraints[n].name)
  {
  }

  /** The collected properties are the rules of the constraints, by name. */
  lemma {:induction false} CollectIs(context: RecommendationContext, constraints: seq<Constraint>)
    requires UniqueNames(constraints) && Collect(context, constraints).Some?
    ensures var collected := Collect(context, constraints).value;
      && (forall c <- constraints :: ArgumentRule(context, c).Some? ==>
            c.name in collected.properties && collected.properties[c.name] == ArgumentRule(context, c).value)
      && (forall c <- constraints :: ArgumentRule(context, c).None? ==> c.name !in collected.properties && !c.required)
      && (forall c <- constraints :: c.required ==> c.name in collected.required)
      && (forall name <- collected.properties :: exists c :: c in constraints && c.name == name)
      && (forall name <- collected.required :: exists c :: c in constraints && c.name == name && c.required)
  {
    if constraints == [] {
    } else {
      LastIsNew(constraints);
      CollectIs(context, constraints[..|constraints| - 1]);
      CollectNames(context, constraints);
    }
  }

  /** Every collected name is the name of a constraint. */
  lemma {:induction false} CollectNames(context: RecommendationContext, constraints: seq<Constraint>)
    requires Collect(context, constraints).Some?
    ensures var collected := Collect(context, constraints).value;
      && (forall name <- collected.properties :: exists c :: c in constraints && c.name == name)
      && (forall name <- collected.required :: exists c :: c in constraints && c.name == name && c.required)
  {
    if constraints == [] {
    } else {
      var n := |constraints| - 1;
      CollectNames(context, constraints[..n]);
      var collected, prior := Collect(context, constraints).value, Collect(context, constraints[..n]).value;
      assert constraints[n] in constraints;
      forall name <- collected.properties ensures exists c :: c in constraints && c.name == name {
        if name in prior.properties {
          var c :| c in constraints[..n] && c.name == name;
          assert c in constraints;
        }
      }
      forall name <- collected.required ensures exists c :: c in constraints && c.name == name && c.required {
        if name in prior.required {
          var c :| c in constraints[..n] && c.name == name && c.required;
          assert c in constraints;
        }
      }
    }
  }

  lemma {:induction false} CollectFailsOnlyOnRequired(context: RecommendationContext, constraints: seq<Constraint>)
    requires Collect(context, constraints).None?
    ensures exists c :: c in constraints && c.required && ArgumentRule(context, c).None?
  {
    var n := |constraints| - 1;
    if Collect(context, constraints[..n]).None? {
      CollectFailsOnlyOnRequired(context, constraints[..n]);
      var c :| c in constraints[..n] && c.required && ArgumentRule(context, c).None?;
      assert c in constraints;
    } else {
      assert constraints[n] in constraints;
    }
  }

  lemma {:induction false} ShapeIsOffered(context: RecommendationContext, actions: seq<ActionDefinition>,
                                          action: ActionDefinition)
    requires action in actions && Collect(context, action.constraints).Some?
    ensures ActionShape(context, action.name, Collect(context, action.constraints).value)
      in ActionShapes(context, actions)
  {
    var n := |actions| - 1;
    if actions[n] != action {
      var i :| 0 <= i < |actions| && actions[i] == action;
      assert actions[..n][i] == action;
      ShapeIsOffered(context, actions[..n], action);
    }
  }

  lemma {:induction false} OfferedShapeIs(context: RecommendationContext, actions: seq<ActionDefinition>, shape: Schema)
    returns (action: ActionDefinition)
    requires shape in ActionShapes(context, actions)
    ensures action in actions && Collect(context, action.constraints).Some?
    ensures shape == ActionShape(context, action.name, Collect(context, action.constraints).value)
  {
    var n := |actions| - 1;
    if shape in ActionShapes(context, actions[..n]) {
      action := OfferedShapeIs(context, actions[..n], shape);
    } else {
      action := actions[n];
    }
  }

  // ---------------------------------------------------------------- what is checked is accepted

  lemma CitedIdsAccepted(step: ProposedStep, context: RecommendationContext, low: nat)
    requires forall id <- step.findingIds :: id in FindingIds(context.findings)
    requires low <= |step.findingIds| <= 50
    ensures Accepts(CitedIds(context, low), Arr(Texts(step.findingIds)))
  {
    if step.findingIds != [] {
      assert step.findingIds[0] in FindingIds(context.findings);
    }
    if context.findings != [] {
      var values := KnownValues(context, FindingIdKind).value;
      KnownValuesAre(context, FindingIdKind);
      forall i | 0 <= i < |step.findingIds| ensures Accepts(Enum(values), Texts(step.findingIds)[i]) {
        assert step.findingIds[i] in step.findingIds;
        var f :| f in context.findings && f.id == step.findingIds[i];
        assert Str(f.id) in values;
        EnumAccepts(values, Str(f.id));
      }
    }
  }

  /** The eight conditions one answer shape puts on an answer. */
  predicate FitsShape(kind: ProposalKind, cited: Schema, actionName: Schema, arguments: Schema, evidence: Schema,
                      v: Json) {
    && v.Obj? && v.fields.Keys == FIELDS
    && v.fields["kind"] == Str(KindText(kind))
    && Accepts(cited, v.fields["finding_ids"])
    && Accepts(actionName, v.fields["action_name"])
    && Accepts(arguments, v.fields["arguments"])
    && v.fields["reason"].Str? && 1 <= |v.fields["reason"].s| <= 1000
    && v.fields["learning_goal"].Str? && 1 <= |v.fields["learning_goal"].s| <= 500
    && v.fields["requires_approval"] == Bool(true)
    && Accepts(evidence, v.fields["evidence_needed"])
  }

  predicate HasShape(shape: Schema, kind: ProposalKind, cited: Schema, actionName: Schema, arguments: Schema,
                     evidence: Schema) {
    && shape.ObjectType? && shape.required == FIELDS && shape.properties.Keys == FIELDS
    && shape.properties["kind"] == Const(Str(KindText(kind)))
    && shape.properties["finding_ids"] == cited
    && shape.properties["action_name"] == actionName
    && shape.properties["arguments"] == arguments
    && shape.properties["reason"] == StringType(1, 1000)
    && shape.properties["learning_goal"] == StringType(1, 500)
    && shape.properties["requires_approval"] == Const(Bool(true))
    && shape.properties["evidence_needed"] == evidence
  }

  lemma AnswerHasShape(kind: ProposalKind, cited: Schema, actionName: Schema, arguments: Schema, evidence: Schema)
    ensures HasShape(AnswerShape(kind, cited, actionName, arguments, evidence),
                     kind, cited, actionName, arguments, evidence)
  {
  }

  lemma FittingIsAccepted(shape: Schema, kind: ProposalKind, cited: Schema, actionName: Schema, arguments: Schema,
                          evidence: Schema, v: Json)
    requires HasShape(shape, kind, cited, actionName, arguments, evidence)
    requires FitsShape(kind, cited, actionName, arguments, evidence, v)
    ensures Accepts(shape, v)
  {
  }

  lemma AcceptedFits(shape: Schema, kind: ProposalKind, cited: Schema, actionName: Schema, arguments: Schema,
                     evidence: Schema, v: Json)
    requires HasShape(shape, kind, cited, actionName, arguments, evidence)
    requires Accepts(shape, v)
    ensures FitsShape(kind, cited, actionName, arguments, evidence, v)
  {
    forall k <- FIELDS ensures k in v.fields && Accepts(shape.properties[k], v.fields[k]) {
      assert k in shape.properties && k in shape.required;
    }
  }

  lemma ShapeAccepts(kind: ProposalKind, cited: Schema, actionName: Schema, arguments: Schema, evidence: Schema,
                     v: Json)
    ensures Accepts(AnswerShape(kind, cited, actionName, arguments, evidence), v)
      <==> FitsShape(kind, cited, actionName, arguments, evidence, v)
  {
    var shape := AnswerShape(kind, cited, actionName, arguments, evidence);
    AnswerHasShape(kind, cited, actionName, arguments, evidence);
    if Accepts(shape, v) {
      AcceptedFits(shape, kind, cited, actionName, arguments, evidence, v);
    }
    if FitsShape(kind, cited, actionName, arguments, evidence, v) {
      FittingIsAccepted(shape, kind, cited, actionName, arguments, evidence, v);
    }
  }

  lemma JsonFits(step: ProposedStep, cited: Schema, actionName: Schema, arguments: Schema, evidence: Schema)
    requires ValidStep(step)
    requires Accepts(cited, Arr(Texts(step.findingIds))) && Accepts(actionName, Nullable(step.actionName))
    requires Accepts(arguments, Obj(step.arguments)) && Accepts(evidence, Nullable(step.evidenceNeeded))
    ensures FitsShape(step.kind, cited, actionName, arguments, evidence, ToJson(step))
  {
  }

  lemma ActionArgumentsAccepted(step: ProposedStep, context: RecommendationContext, action: ActionDefinition)
    requires ValidContext(context) && ValidStep(step) && ValidAgainst(step, context)
    requires step.kind.ActionProposal? && LookupAction(context.allowedActions, step.actionName.value) == Some(action)
    requires action in context.allowedActions
    ensures Collect(context, action.constraints).Some?
    ensures var collected := Collect(context, action.constraints).value;
      Accepts(ObjectType(collected.properties, collected.required), Obj(step.arguments))
  {
    var constraints := action.constraints;
    assert ValidAction(action);
    forall name <- step.arguments
      ensures var c := LookupConstraint(constraints, name);
        && c.Some? && c.value in constraints && c.value.name == name
        && ArgumentRule(context, c.value).Some? && Accepts(ArgumentRule(context, c.value).value, step.arguments[name])
    {
      LookupConstraintIs(constraints, name);
      var constraint := LookupConstraint(constraints, name).value;
      CheckedArgumentFitsRule(step.arguments[name], constraint, context, step.findingIds);
    }
    forall c <- constraints | c.required ensures ArgumentRule(context, c).Some? {
      LookupConstraintFinds(constraints, c);
      assert c.name in step.arguments;
    }
    if Collect(context, constraints).None? {
      CollectFailsOnlyOnRequired(context, constraints);
    }
    CollectIs(context, constraints);
  }

  lemma CheckedActionIsAccepted(step: ProposedStep, context: RecommendationContext) returns (shape: Schema)
    requires ValidContext(context) && ValidStep(step) && ValidAgainst(step, context) && step.kind.ActionProposal?
    ensures context.findings != [] && shape in ActionShapes(context, context.allowedActions)
    ensures Accepts(shape, ToJson(step))
  {
    LookupActionIs(context.allowedActions, step.actionName.value);
    var action := LookupAction(context.allowedActions, step.actionName.value).value;
    ActionArgumentsAccepted(step, context, action);
    CitedIdsAccepted(step, context, 1);
    var collected := Collect(context, action.constraints).value;
    ShapeIsOffered(context, context.allowedActions, action);
    shape := ActionShape(context, action.name, collected);
    assert step.findingIds[0] in FindingIds(context.findings);
    var arguments := ObjectType(collected.properties, collected.required);
    JsonFits(step, CitedIds(context, 1), Const(Str(action.name)), arguments, NullType);
    ShapeAccepts(ActionProposal, CitedIds(context, 1), Const(Str(action.name)), arguments, NullType, ToJson(step));
  }

  lemma CheckedEvidenceIsAccepted(step: ProposedStep, context: RecommendationContext)
    requires ValidStep(step) && ValidAgainst(step, context) && step.kind.MoreEvidence?
    ensures Accepts(EvidenceShape(context), ToJson(step))
  {
    CitedIdsAccepted(step, context, 0);
    var arguments := ObjectType(map[], {});
    JsonFits(step, CitedIds(context, 0), NullType, arguments, StringType(1, 500));
    ShapeAccepts(MoreEvidence, CitedIds(context, 0), NullType, arguments, StringType(1, 500), ToJson(step));
  }

  lemma AnyShapeAccepts(shapes: seq<Schema>, shape: Schema, v: Json)
    requires shape in shapes && Accepts(shape, v)
    ensures Accepts(AnyOf(shapes), v)
  {
  }

  /** Every step that the strict checks accept is accepted by the format built for its context. */
  lemma CheckedStepIsAccepted(step: ProposedStep, context: RecommendationContext)
    requires ValidContext(context) && ValidStep(step) && ValidAgainst(step, context)
    ensures Accepts(FormatOf(context), ToJson(step))
  {
    if step.kind.ActionProposal? {
      var shape := CheckedActionIsAccepted(step, context);
      AnyShapeAccepts(FormatOf(context).shapes, shape, ToJson(step));
    } else {
      CheckedEvidenceIsAccepted(step, context);
      AnyShapeAccepts(FormatOf(context).shapes, EvidenceShape(context), ToJson(step));
    }
  }

  // ---------------------------------------------------------------- what is accepted is checked

  /** The context conditions of the converse. */
  ghost predicate Unambiguous(context: RecommendationContext) {
    && UniqueFindingIds(context.findings)
    && (forall a, b | a in context.allowedActions && b in context.allowedActions && a.name == b.name :: a == b)
    && (forall a <- context.allowedActions :: forall c <- a.constraints :: ChoicesFit(c))
  }

  /** The step's arguments are exact for the constraints of the action it names. */
  ghost predicate ExactStep(step: ProposedStep, context: RecommendationContext) {
    step.kind.ActionProposal? && step.actionName.Some? ==>
      forall a <- context.allowedActions | a.name == step.actionName.value ::
        forall c <- a.constraints | c.name in step.arguments ::
          ExactArgument(step.arguments[c.name], c, context, step.findingIds)
  }

  lemma AcceptedIdsAre(context: RecommendationContext, low: nat, v: Json)
    requires Accepts(CitedIds(context, low), v)
    requires context.findings == [] ==> low == 0
    ensures v.Arr? && low <= |v.items| <= 50
    ensures ParseTexts(v.items).Some? && |ParseTexts(v.items).value| == |v.items|
    ensures forall id <- ParseTexts(v.items).value :: id in FindingIds(context.findings)
  {
    if context.findings != [] {
      var values := KnownValues(context, FindingIdKind).value;
      KnownValuesAre(context, FindingIdKind);
      forall i | 0 <= i < |v.items| ensures v.items[i].Str? && v.items[i].s in FindingIds(context.findings) {
        EnumSound(values, v.items[i]);
        var w :| w in values && ScalarEqual(w, v.items[i]);
        var f :| f in context.findings && w == Str(f.id);
      }
    }
    ParsedTextsAre(v.items);
  }

  lemma FittingAnswerParses(kind: ProposalKind, cited: Schema, actionName: Schema, arguments: Schema, evidence: Schema,
                            v: Json, step: ProposedStep)
    requires FitsShape(kind, cited, actionName, arguments, evidence, v)
    requires v.fields["finding_ids"].Arr? && ParseTexts(v.fields["finding_ids"].items) == Some(step.findingIds)
    requires v.fields["action_name"] == Nullable(step.actionName)
    requires v.fields["arguments"] == Obj(step.arguments)
    requires v.fields["evidence_needed"] == Nullable(step.evidenceNeeded)
    requires step.kind == kind
    requires v.fields["reason"].s == step.reason && v.fields["learning_goal"].s == step.learningGoal
    requires ValidStep(step)
    ensures ParseStep(v) == Some(step)
  {
  }

  lemma AcceptedEvidenceParses(context: RecommendationContext, v: Json)
    requires FitsShape(MoreEvidence, CitedIds(context, 0), NullType, ObjectType(map[], {}), StringType(1, 500), v)
    ensures ParseStep(v).Some? && ParseStep(v).value.kind.MoreEvidence? && ValidAgainst(ParseStep(v).value, context)
  {
    AcceptedIdsAre(context, 0, v.fields["finding_ids"]);
    var ids := ParseTexts(v.fields["finding_ids"].items).value;
    var step := ProposedStep(MoreEvidence, ids, None, map[], v.fields["reason"].s, v.fields["learning_goal"].s,
                             Some(v.fields["evidence_needed"].s));
    assert v.fields["arguments"].fields == map[];
    FittingAnswerParses(MoreEvidence, CitedIds(context, 0), NullType, ObjectType(map[], {}), StringType(1, 500),
                        v, step);
  }

  lemma AcceptedActionParses(context: RecommendationContext, v: Json, name: string, arguments: Schema)
    requires context.findings != [] && IsName(name) && arguments.ObjectType?
    requires FitsShape(ActionProposal, CitedIds(context, 1), Const(Str(name)), arguments, NullType, v)
    ensures ParseStep(v).Some?
    ensures var step := ParseStep(v).value;
      && step.kind.ActionProposal? && step.actionName == Some(name)
      && (forall id <- step.findingIds :: id in FindingIds(context.findings))
      && Accepts(arguments, Obj(step.arguments))
  {
    AcceptedIdsAre(context, 1, v.fields["finding_ids"]);
    var ids := ParseTexts(v.fields["finding_ids"].items).value;
    var step := ProposedStep(ActionProposal, ids, Some(name), v.fields["arguments"].fields, v.fields["reason"].s,
                             v.fields["learning_goal"].s, None);
    FittingAnswerParses(ActionProposal, CitedIds(context, 1), Const(Str(name)), arguments, NullType, v, step);
  }

  lemma AcceptedArgumentsHaveRules(context: RecommendationContext, action: ActionDefinition, arguments: map<string,
                                   Json>, name: string)
    requires UniqueNames(action.constraints) && Collect(context, action.constraints).Some?
    requires var collected := Collect(context, action.constraints).value;
      Accepts(ObjectType(collected.properties, collected.required), Obj(arguments))
    requires name in arguments
    ensures var c := LookupConstraint(action.constraints, name);
      && c.Some? && c.value in action.constraints && c.value.name == name
      && ArgumentRule(context, c.value).Some? && Accepts(ArgumentRule(context, c.value).value, arguments[name])
  {
    CollectIs(context, action.constraints);
    LookupConstraintIs(action.constraints, name);
  }

  lemma AcceptedActionIsChecked(context: RecommendationContext, v: Json, action: ActionDefinition)
    requires ValidContext(context) && Unambiguous(context) && context.findings != []
    requires action in context.allowedActions && Collect(context, action.constraints).Some?
    requires Accepts(ActionShape(context, action.name, Collect(context, action.constraints).value), v)
    ensures ParseStep(v).Some?
    ensures ValidAgainst(ParseStep(v).value, context) <==> ExactStep(ParseStep(v).value, context)
  {
    assert ValidAction(action);
    var collected := Collect(context, action.constraints).value;
    var arguments := ObjectType(collected.properties, collected.required);
    ShapeAccepts(ActionProposal, CitedIds(context, 1), Const(Str(action.name)), arguments, NullType, v);
    AcceptedActionParses(context, v, action.name, arguments);
    AcceptedArgumentsDecide(context, ParseStep(v).value, action);
  }

  lemma AcceptedArgumentsDecide(context: RecommendationContext, step: ProposedStep, action: ActionDefinition)
    requires ValidContext(context) && Unambiguous(context)
    requires action in context.allowedActions && Collect(context, action.constraints).Some?
    requires step.kind.ActionProposal? && step.actionName == Some(action.name)
    requires forall id <- step.findingIds :: id in FindingIds(context.findings)
    requires var collected := Collect(context, action.constraints).value;
      Accepts(ObjectType(collected.properties, collected.required), Obj(step.arguments))
    ensures ValidAgainst(step, context) <==> ExactStep(step, context)
  {
    assert ValidAction(action);
    LookupActionIs(context.allowedActions, action.name);
    CollectIs(context, action.constraints);
    forall name <- step.arguments
      ensures var c := LookupConstraint(action.constraints, name);
        && c.Some? && c.value in action.constraints && c.value.name == name
        && (ValidArgument(step.arguments[name], c.value, context, Supporting(context.findings, step.findingIds))
            <==> ExactArgument(step.arguments[name], c.value, context, step.findingIds))
    {
      AcceptedArgumentsHaveRules(context, action, step.arguments, name);
      var constraint := LookupConstraint(action.constraints, name).value;
      ArgumentIffExact(step.arguments[name], constraint, context, step.findingIds);
    }
    ArgumentsDecide(context, step, action);
  }

  lemma ArgumentIffExact(value: Json, constraint: Constraint, context: RecommendationContext, cited: seq<string>)
    requires ValidContext(context) && UniqueFindingIds(context.findings) && ChoicesFit(constraint)
    requires ArgumentRule(context, constraint).Some? && Accepts(ArgumentRule(context, constraint).value, value)
    ensures ValidArgument(value, constraint, context, Supporting(context.findings, cited))
      <==> ExactArgument(value, constraint, context, cited)
  {
    if ValidArgument(value, constraint, context, Supporting(context.findings, cited)) {
      CheckedArgumentFitsRule(value, constraint, context, cited);
    }
    if ExactArgument(value, constraint, context, cited) {
      RuleFitsCheck(value, constraint, context, cited);
    }
  }

  lemma ArgumentsDecide(context: RecommendationContext, step: ProposedStep, action: ActionDefinition)
    requires ValidContext(context) && Unambiguous(context)
    requires action in context.allowedActions && LookupAction(context.allowedActions, action.name) == Some(action)
    requires step.kind.ActionProposal? && step.actionName == Some(action.name)
    requires forall id <- step.findingIds :: id in FindingIds(context.findings)
    requires forall c <- action.constraints :: c.required ==> c.name in step.arguments
    requires forall name <- step.arguments ::
      var c := LookupConstraint(action.constraints, name);
      && c.Some? && c.value in action.constraints && c.value.name == name
      && (ValidArgument(step.arguments[name], c.value, context, Supporting(context.findings, step.findingIds))
          <==> ExactArgument(step.arguments[name], c.value, context, step.findingIds))
    ensures ValidAgainst(step, context) <==> ExactStep(step, context)
  {
  }

  /** Every answer the format accepts is a well-formed step, and the strict check accepts that step
      exactly when its arguments are integers where numbers are asked for and refer only to findings
      the step cites. */
  lemma AcceptedAnswerIsChecked(context: RecommendationContext, v: Json)
    requires ValidContext(context) && Unambiguous(context)
    requires Accepts(FormatOf(context), v)
    ensures ParseStep(v).Some?
    ensures ValidAgainst(ParseStep(v).value, context) <==> ExactStep(ParseStep(v).value, context)
  {
    var shapes := FormatOf(context).shapes;
    var i :| 0 <= i < |shapes| && Accepts(shapes[i], v);
    if i == |shapes| - 1 {
      ShapeAccepts(MoreEvidence, CitedIds(context, 0), NullType, ObjectType(map[], {}), StringType(1, 500), v);
      AcceptedEvidenceParses(context, v);
    } else {
      assert shapes[i] == ActionShapes(context, context.allowedActions)[i];
      var action := OfferedShapeIs(context, context.allowedActions, shapes[i]);
      AcceptedActionIsChecked(context, v, action);
    }
  }

  /** The two directions together: for a written-out step the format and the check differ only in
      what no format can say. */
  lemma FormatAgreesWithCheck(step: ProposedStep, context: RecommendationContext)
    requires ValidContext(context) && Unambiguous(context) && ValidStep(step)
    ensures ValidAgainst(step, context) <==> Accepts(FormatOf(context), ToJson(step)) && ExactStep(step, context)
  {
    ParseInvertsToJson(step);
    if Accepts(FormatOf(context), ToJson(step)) {
      AcceptedAnswerIsChecked(context, ToJson(step));
    }
    if ValidAgainst(step, context) {
      CheckedStepIsAccepted(step, context);
    }
  }

  /** The converse does need its number condition: 80.0 is an integer to the format and not to the
      check, even for a port that a cited finding has. */
  lemma FloatPortSplitsThem()
    ensures var finding := Finding("f", Observed, "tcp", 80, None);
      var constraint := Constraint("port", PortKind, true, None, None, []);
      var context := RecommendationContext("t", [finding], [ActionDefinition("a", [constraint])]);
      && ArgumentRule(context, constraint).Some?
      && Accepts(ArgumentRule(context, constraint).value, Float(80.0))
      && !ValidArgument(Float(80.0), constraint, context, Supporting(context.findings, ["f"]))
  {
    var finding := Finding("f", Observed, "tcp", 80, None);
    var constraint := Constraint("port", PortKind, true, None, None, []);
    var context := RecommendationContext("t", [finding], [ActionDefinition("a", [constraint])]);
    var known := KnownValues(context, PortKind).value;
    assert known == [Int(80)];
    AllowedValuesAre(constraint, known);
    assert Int(80) in AllowedValues(constraint, known);
    var values := AllowedValues(constraint, known);
    var i :| 0 <= i < |values| && values[i] == Int(80);
    assert ScalarEqual(values[i], Float(80.0));
  }
}
