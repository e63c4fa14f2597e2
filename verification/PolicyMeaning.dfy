/**
 Normalising a policy document keeps its meaning: the engine decides about every packet as before.
 */
module PolicyMeaning {
  import opened Wrappers
  import opened PolicyText
  import opened PolicyEngine
  import opened PolicyChecks
  import opened PolicyService

  // ---------------------------------------------------------------- operators

  lemma {:induction false} NoCapitals(s: string)
    requires forall i | 0 <= i < |s| :: !('A' <= s[i] <= 'Z')
    ensures Lower(s) == s
  {
    if s != "" {
      NoCapitals(s[1..]);
    }
  }

  /** The evaluator carries the named operator out under this spelling. */
  predicate Spells(op: string, name: string) {
    Canonical(OpName(Str(op))) == Some(name)
  }

  lemma NoCapitalsInOps(op: string)
    requires Unaliased(op) in SUPPORTED_OPS
    ensures op != "" && forall i | 0 <= i < |op| :: !('A' <= op[i] <= 'Z')
  {
  }

  lemma CanonicalIsUnaliased(op: string)
    requires Unaliased(op) in SUPPORTED_OPS
    ensures Canonical(op) == Some(Unaliased(op))
  {
  }

  lemma ShortNames()
    ensures Unaliased("contains") == "contains" && Unaliased("in") == "in"
  {
  }

  /** The normalised names are no aliases themselves. */
  lemma NoAlias(op: string)
    requires op in SUPPORTED_OPS
    ensures Unaliased(op) == op
  {
    ShortNames();
  }

  lemma SpellsItsName(op: string)
    requires Unaliased(op) in SUPPORTED_OPS
    ensures Spells(op, Unaliased(op))
  {
    NoCapitalsInOps(op);
    NoCapitals(op);
    CanonicalIsUnaliased(op);
  }

  /** The evaluator reads an accepted operator, alias or not, as the operator it is normalised to. */
  lemma OperatorMeaning(op: string)
    requires Unaliased(op) in SUPPORTED_OPS
    ensures Spells(op, Unaliased(op)) && Spells(Unaliased(op), Unaliased(op))
  {
    SpellsItsName(op);
    NoAlias(Unaliased(op));
    SpellsItsName(Unaliased(op));
  }

  // ---------------------------------------------------------------- conditions

  lemma ComparisonShape(c: Object, objects: Object)
    requires Comparison(c, objects).Some?
    ensures "field" in c && "value" in c && "all" !in c && "any" !in c
    ensures var op := GetOr(c, "op", Str("equals"));
      op.Str? && Unaliased(op.s) in SUPPORTED_OPS
      && Comparison(c, objects) == Some(Obj(PlainLeaf(c["field"], Unaliased(op.s), c["value"])))
  {
  }

  lemma PlainLeafFacts(field: Json, op: string, value: Json)
    ensures var c := PlainLeaf(field, op, value);
      Leaf(c) && Get(c, "field") == field && GetOr(c, "op", Str("equals")) == Str(op) && Get(c, "value") == value
  {
  }

  lemma ComparisonMeaning(c: Object, known: Known, probe: Probe)
    requires Comparison(c, known.objects).Some?
    ensures var c' := Comparison(c, known.objects).value;
      c'.Obj? && ConditionMatches(known, c'.fields, probe) == ConditionMatches(known, c, probe)
      && OwnSecrets(c'.fields) == OwnSecrets(c) && Leaf(c'.fields) && Leaf(c)
  {
    ComparisonShape(c, known.objects);
    LeafKeepsMeaning(c, GetOr(c, "op", Str("equals")).s, known, probe);
  }

  lemma LeafKeepsMeaning(c: Object, op: string, known: Known, probe: Probe)
    requires "field" in c && "value" in c && GetOr(c, "op", Str("equals")) == Str(op) && Unaliased(op) in SUPPORTED_OPS
    ensures var c' := PlainLeaf(c["field"], Unaliased(op), c["value"]);
      ConditionMatches(known, c', probe) == ConditionMatches(known, c, probe) && OwnSecrets(c') == OwnSecrets(c)
        && Leaf(c')
  {
    PlainLeafFacts(c["field"], Unaliased(op), c["value"]);
    OperatorMeaning(op);
  }

  predicate Leaf(c: Object) {
    "field" in c && "all" !in c && "any" !in c
  }

  lemma LeafMeaning(c: Object, known: Known, probe: Probe)
    requires Leaf(c)
    ensures Matches(known, Obj(c), probe) == ConditionMatches(known, c, probe)
    ensures ConditionSecrets(Obj(c)) == OwnSecrets(c)
  {
  }

  lemma AllMeaning(items: seq<Json>, known: Known, probe: Probe)
    ensures var j := Obj(map["all" := List(items)]);
      Matches(known, j, probe) == AllMatch(known, items, probe) && ConditionSecrets(j) == AllSecrets(items)
  {
    var o: Object := map["all" := List(items)];
    assert "field" !in o && "any" !in o && o["all"] == List(items);
  }

  lemma AnyMeaning(items: seq<Json>, known: Known, probe: Probe)
    ensures var j := Obj(map["any" := List(items)]);
      Matches(known, j, probe) == AnyMatches(known, items, probe) && ConditionSecrets(j) == AllSecrets(items)
  {
    var o: Object := map["any" := List(items)];
    assert "field" !in o && "all" !in o && o["any"] == List(items);
  }

  lemma BranchKeepsMeaning(branch: string, items: seq<Json>, items': seq<Json>, known: Known, probe: Probe)
    requires branch == "all" || branch == "any"
    requires AllMatch(known, items', probe) == AllMatch(known, items, probe)
    requires AnyMatches(known, items', probe) == AnyMatches(known, items, probe)
    requires AllSecrets(items') == AllSecrets(items)
    ensures var (j, j') := (Obj(map[branch := List(items)]), Obj(map[branch := List(items')]));
      Matches(known, j', probe) == Matches(known, j, probe) && ConditionSecrets(j') == ConditionSecrets(j)
  {
    if branch == "all" {
      AllMeaning(items, known, probe);
      AllMeaning(items', known, probe);
    } else {
      AnyMeaning(items, known, probe);
      AnyMeaning(items', known, probe);
    }
  }

  lemma {:induction false} ConditionMeaning(j: Json, known: Known, depth: nat, probe: Probe)
    requires Condition(j, known.objects, depth).Some?
    ensures Matches(known, Condition(j, known.objects, depth).value, probe) == Matches(known, j, probe)
    ensures ConditionSecrets(Condition(j, known.objects, depth).value) == ConditionSecrets(j)
    decreases 17 - depth, 0
  {
    if "all" in j.fields || "any" in j.fields {
      var branch := if "all" in j.fields then "all" else "any";
      var items := j.fields[branch].items;
      OneField(j.fields, branch);
      ConditionsMeaning(items, known, depth + 1, probe);
      BranchKeepsMeaning(branch, items, Conditions(items, known.objects, depth + 1).value, known, probe);
    } else {
      ComparisonMeaning(j.fields, known, probe);
      LeafMeaning(j.fields, known, probe);
      LeafMeaning(Comparison(j.fields, known.objects).value.fields, known, probe);
    }
  }

  lemma {:induction false} ConditionsMeaning(items: seq<Json>, known: Known, depth: nat, probe: Probe)
    requires depth <= MAX_DEPTH + 1 && Conditions(items, known.objects, depth).Some?
    ensures var items' := Conditions(items, known.objects, depth).value;
      && AllMatch(known, items', probe) == AllMatch(known, items, probe)
      && AnyMatches(known, items', probe) == AnyMatches(known, items, probe)
      && AllSecrets(items') == AllSecrets(items)
    decreases 17 - depth, |items|
  {
    if items != [] {
      ConditionMeaning(items[0], known, depth, probe);
      ConditionsMeaning(items[1..], known, depth, probe);
      var (one, rest) := (Condition(items[0], known.objects, depth).value,
                          Conditions(items[1..], known.objects, depth).value);
      assert ([one] + rest)[1..] == rest;
    }
  }

  /** Does every comparison in a condition name a known operator and a known object, whose value it suits? */
  predicate Meaningful(j: Json, objects: Object)
    decreases j
  {
    j.Obj? &&
    if "field" in j.fields then
      var op := Canonical(OpName(GetOr(j.fields, "op", Str("equals"))));
      var v := Resolve(objects, Get(j.fields, "value"));
      op.Some? && v.Some? && j.fields["field"].Str? && Typed(j.fields["field"].s, op.value, v.value)
    else if "all" in j.fields then j.fields["all"].List? && AllMeaningful(j.fields["all"].items, objects)
    else "any" in j.fields && j.fields["any"].List? && AllMeaningful(j.fields["any"].items, objects)
  }

  predicate AllMeaningful(items: seq<Json>, objects: Object)
    decreases items
  {
    items == [] || (Meaningful(items[0], objects) && AllMeaningful(items[1..], objects))
  }

  /** An accepted condition never fails to match for an unknown operator or object, or for comparing values of the
      wrong type: the checks of the service are those of the evaluator. */
  lemma {:induction false} AcceptedIsMeaningful(j: Json, objects: Object, depth: nat)
    requires Condition(j, objects, depth).Some?
    ensures Meaningful(j, objects)
    decreases 17 - depth, 0
  {
    if "all" in j.fields || "any" in j.fields {
      var branch := if "all" in j.fields then "all" else "any";
      OneField(j.fields, branch);
      AllAcceptedMeaningful(j.fields[branch].items, objects, depth + 1);
    } else {
      ComparisonShape(j.fields, objects);
      ComparisonAcceptedIff(j.fields, objects);
      OperatorMeaning(GetOr(j.fields, "op", Str("equals")).s);
    }
  }

  lemma {:induction false} AllAcceptedMeaningful(items: seq<Json>, objects: Object, depth: nat)
    requires depth <= MAX_DEPTH + 1 && Conditions(items, objects, depth).Some?
    ensures AllMeaningful(items, objects)
    decreases 17 - depth, |items|
  {
    if items != [] {
      AcceptedIsMeaningful(items[0], objects, depth);
      AllAcceptedMeaningful(items[1..], objects, depth);
    }
  }

  // ---------------------------------------------------------------- rules

  lemma RuleShape(j: Json, objects: Object, index: nat, seen: set<Json>)
    requires Rule(j, objects, index, seen).Some?
    ensures j.Obj? && Condition(Get(j.fields, "if"), objects, 0).Some? && NamedAction(j.fields).Some?
    ensures var enabled := GetOr(j.fields, "enabled", Bool(true));
      enabled.Bool? && Rule(j, objects, index, seen)
        == Some(Obj(PlainRule(j.fields, GetOr(j.fields, "id", Int(index + 1)),
        enabled, NamedAction(j.fields).value, Condition(Get(j.fields, "if"), objects, 0).value)))
  {
  }

  lemma PlainRuleFacts(rule: Object, id: Json, enabled: Json, action: string, condition: Json)
    ensures var r := PlainRule(rule, id, enabled, action, condition);
      && GetOr(r, "enabled", Bool(true)) == enabled && GetOr(r, "if", Obj(map[])) == condition
      && GetOr(r, "then", Obj(map[])) == Obj(map["action" := Str(action)]) && Get(r, "id") == id
  {
  }

  lemma PlainAction(rule: Object, action: string)
    requires GetOr(rule, "then", Obj(map[])) == Obj(map["action" := Str(action)]) && action in ACTIONS
    ensures RuleAction(rule) == action
  {
    assert map["action" := Str(action)]["action"] == Str(action);
  }

  lemma RuleMeaning(j: Json, known: Known, index: nat, seen: set<Json>, probe: Probe)
    requires Rule(j, known.objects, index, seen).Some?
    ensures var r := Rule(j, known.objects, index, seen).value;
      && r.Obj? && Applies(known, r, probe) == Applies(known, j, probe)
      && j.Obj? && RuleAction(r.fields) == RuleAction(j.fields)
      && RuleSecrets([r]) == RuleSecrets([j])
  {
    RuleShape(j, known.objects, index, seen);
    var c := Get(j.fields, "if");
    var enabled := GetOr(j.fields, "enabled", Bool(true));
    var action := NamedAction(j.fields).value;
    var c' := Condition(c, known.objects, 0).value;
    ConditionMeaning(c, known, 0, probe);
    ActionMeaning(j.fields);
    PlainRuleFacts(j.fields, GetOr(j.fields, "id", Int(index + 1)), enabled, action, c');
    PlainAction(PlainRule(j.fields, GetOr(j.fields, "id", Int(index + 1)), enabled, action, c'), action);
    OneRuleSecrets(j.fields, c);
    OneRuleSecrets(Rule(j, known.objects, index, seen).value.fields, c');
  }

  lemma OneRuleSecrets(rule: Object, c: Json)
    requires c.Obj? && Get(rule, "if") == c
    ensures RuleSecrets([Obj(rule)]) == ConditionSecrets(c)
  {
    assert [Obj(rule)][1..] == [];
  }

  lemma ActionMeaning(rule: Object)
    requires NamedAction(rule).Some?
    ensures RuleAction(rule) == NamedAction(rule).value && NamedAction(rule).value in ACTIONS
  {
  }

  lemma RuleSecretsCons(r: Json, rules: seq<Json>)
    ensures RuleSecrets([r] + rules) == RuleSecrets([r]) + RuleSecrets(rules)
  {
    assert ([r] + rules)[1..] == rules && [r][1..] == [];
  }

  lemma {:induction false} RulesMeaning(rules: seq<Json>, known: Known, default: string, index: nat, seen: set<Json>,
      probe: Probe)
    requires Rules(rules, known.objects, index, seen).Some?
    ensures var rules' := Rules(rules, known.objects, index, seen).value;
      && FirstRule(known, default, rules', probe) == FirstRule(known, default, rules, probe)
      && RuleSecrets(rules') == RuleSecrets(rules)
    decreases |rules|
  {
    if rules != [] {
      var one := Rule(rules[0], known.objects, index, seen).value;
      var seen' := seen + {IdOf(one)};
      RuleMeaning(rules[0], known, index, seen, probe);
      RulesMeaning(rules[1..], known, default, index + 1, seen', probe);
      var rest := Rules(rules[1..], known.objects, index + 1, seen').value;
      RuleSecretsCons(one, rest);
      RuleSecretsCons(rules[0], rules[1..]);
      assert rules == [rules[0]] + rules[1..] && ([one] + rest)[1..] == rest;
    }
  }

  // ---------------------------------------------------------------- documents

  /** The engine of a configuration with its rules and objects written out. */
  lemma EngineParts(cfg: Object, objects: Object, rules: seq<Json>)
    requires cfg.Keys <= DEFAULTS.Keys && Get(cfg, "objects") == Obj(objects) && Get(cfg, "rules") == List(rules)
    ensures FromConfig(cfg) == Engine(Truthy(GetOr(cfg, "enabled", Bool(false))),
      ActionOf(GetOr(cfg, "default_action", Str("allow"))), rules, Known(objects, Distinct(RuleSecrets(rules))))
  {
  }

  /** What an accepted document is normalised to. */
  lemma NormalShape(j: Json, existing: Option<Json>, project: bool)
    requires Normalize(j, existing, project).Some?
    ensures j.Obj? && EngineConfig(j.fields).Some?
    ensures var d := Normalize(j, existing, project).value;
      var given := EngineConfig(j.fields).value;
      var cfg := DEFAULTS + given;
      && given.Keys <= DEFAULTS.Keys && GoodConfig(cfg)
      && Groups(GetOr(j.fields, "groups", if existing.Some? then existing.value else Obj(map[]))) == Some(d.groups)
      && var objects := Objects(cfg["objects"].fields, d.groups, project && CarriesGroups(j.fields, existing));
         var rules := Rules(cfg["rules"].items, objects, 0, {});
         rules.Some? && d.engine == cfg["objects" := Obj(objects)]["rules" := List(rules.value)]
  {
  }

  /** For every accepted document and every packet: the engine of the normalised document decides as the engine
      of the original does with the projected objects in place of its own. */
  lemma NormalisationKeepsMeaning(j: Json, existing: Option<Json>, project: bool, probe: Probe)
    requires Normalize(j, existing, project).Some?
    ensures var d := Normalize(j, existing, project).value;
      "objects" in d.engine && EngineConfig(j.fields).Some?
      && Evaluate(FromConfig(d.engine), probe)
         == Evaluate(FromConfig(EngineConfig(j.fields).value["objects" := d.engine["objects"]]), probe)
  {
    NormalShape(j, existing, project);
    var d := Normalize(j, existing, project).value;
    var given := EngineConfig(j.fields).value;
    var objects := Objects((DEFAULTS + given)["objects"].fields, d.groups,
                           project && CarriesGroups(j.fields, existing));
    ConfigMeaning(given, objects, probe);
  }

  lemma ConfigMeaning(given: Object, objects: Object, probe: Probe)
    requires given.Keys <= DEFAULTS.Keys && GoodConfig(DEFAULTS + given)
    requires Rules((DEFAULTS + given)["rules"].items, objects, 0, {}).Some?
    ensures var cfg := DEFAULTS + given;
      var rules := Rules(cfg["rules"].items, objects, 0, {}).value;
      Evaluate(FromConfig(cfg["objects" := Obj(objects)]["rules" := List(rules)]), probe)
      == Evaluate(FromConfig(given["objects" := Obj(objects)]), probe)
  {
    var cfg := DEFAULTS + given;
    var rules := cfg["rules"].items;
    var rules' := Rules(rules, objects, 0, {}).value;
    RulesMeaning(rules, Known(objects, Distinct(RuleSecrets(rules))), cfg["default_action"].s, 0, {}, probe);
    EngineParts(cfg["objects" := Obj(objects)]["rules" := List(rules')], objects, rules');
    OriginalEngine(given, objects);
  }

  lemma OriginalEngine(given: Object, objects: Object)
    requires given.Keys <= DEFAULTS.Keys && GoodConfig(DEFAULTS + given)
    ensures var cfg := DEFAULTS + given;
      FromConfig(given["objects" := Obj(objects)])
        == Engine(cfg["enabled"].flag, cfg["default_action"].s, cfg["rules"].items,
        Known(objects, Distinct(RuleSecrets(cfg["rules"].items))))
  {
  }

  /** So when the projection leaves the objects as they were, nothing changes for any packet. */
  lemma UnprojectedMeaning(j: Json, existing: Option<Json>, project: bool, probe: Probe)
    requires Normalize(j, existing, project).Some?
    requires var d := Normalize(j, existing, project).value;
      EngineConfig(j.fields).Some? && "objects" in d.engine
      && GetOr(EngineConfig(j.fields).value, "objects", Obj(map[])) == d.engine["objects"]
    ensures Evaluate(FromConfig(Normalize(j, existing, project).value.engine), probe)
         == Evaluate(FromConfig(EngineConfig(j.fields).value), probe)
  {
    NormalisationKeepsMeaning(j, existing, project, probe);
    var given := EngineConfig(j.fields).value;
    var cfg := DEFAULTS + given;
    OriginalEngine(given, cfg["objects"].fields);
    var filled := given["objects" := cfg["objects"]];
    assert FromConfig(filled) == FromConfig(given);
  }

  /** A document that is not enabled, or says nothing of it, allows every packet, whatever its rules. */
  lemma DisabledDocumentAllows(j: Json, existing: Option<Json>, project: bool, probe: Probe)
    requires Normalize(j, existing, project).Some? && EngineConfig(j.fields).Some?
    requires GetOr(EngineConfig(j.fields).value, "enabled", Bool(false)) == Bool(false)
    ensures Evaluate(FromConfig(Normalize(j, existing, project).value.engine), probe) == Decision("allow", false)
  {
    NormalShape(j, existing, project);
    NormalisationKeepsMeaning(j, existing, project, probe);
  }
}
