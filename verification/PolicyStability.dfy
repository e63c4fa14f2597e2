/**
 Normalising a policy document a second time changes nothing.
 */
module PolicyStability {
  import opened Wrappers
  import opened PolicyText
  import opened PolicyEngine
  import opened PolicyService
  import opened PolicyMeaning
  import opened PolicyGroups

  // ---------------------------------------------------------------- groups

  lemma EntryValueStable(k: Kind, j: Json)
    requires EntryValue(k, j).Some?
    ensures EntryValue(k, Str(EntryValue(k, j).value)) == EntryValue(k, j)
  {
    match k {
      case PublicKeys => PublicKeyIsStable(j.s);
      case ChannelHashes =>
        var text := if j.Str? then j.s else Decimal(j.n);
        if Secret(text).Some? {
          SecretIsStable(text);
        } else if j.Int? {
          ByteTextHash(j.n);
        } else {
          HashTextStable(j.s);
        }
    }
  }

  lemma HashTextStable(text: string)
    requires HashOfText(text).Some?
    ensures var t := HashOfText(text).value; HashOfText(t) == Some(t) && Secret(t) == None
  {
    var raw := Strip(text);
    var n := if raw != "" && !HasPrefix(raw) && AllDigits(raw) then Digits(raw, 10, 0, false) else HexInt(raw);
    ByteTextHash(n.value);
  }

  lemma IdentifierOfStable(value: Json, fallback: Json, other: Json)
    requires IdentifierOf(value, fallback).Some?
    ensures var id := IdentifierOf(value, fallback).value; id != "" && IdentifierOf(Str(id), other) == Some(id)
  {
    var v := if value.Null? || value == Str("") then fallback else value;
    IdentifierIsStable(v.s);
    IdentifierShape(v.s);
  }

  function PlainEntry(id: string, name: Json, value: string): Object {
    map["id" := Str(id), "friendly_name" := name, "value" := Str(value)]
  }

  lemma EntryStable(k: Kind, j: Json)
    requires Entry(k, j).Some?
    ensures Entry(k, Entry(k, j).value) == Entry(k, j)
  {
    var e := j.fields;
    var value := EntryValue(k, Get(e, "value")).value;
    var fallback := Or(Or(Get(e, "friendly_name"), Get(e, "name")), Str(value));
    var id := IdentifierOf(Get(e, "id"), fallback).value;
    var name := Text(GetOr(e, "friendly_name", Get(e, "name")), id).value;
    var e' := PlainEntry(id, name, value);
    EntryValueStable(k, Get(e, "value"));
    IdentifierOfStable(Get(e, "id"), fallback, Or(Or(name, Null), Str(value)));
    assert Entry(k, j) == Some(Obj(e'));
    PlainEntryStable(k, id, name, value);
  }

  lemma PlainEntryStable(k: Kind, id: string, name: Json, value: string)
    requires EntryValue(k, Str(value)) == Some(value) && name.Str?
    requires IdentifierOf(Str(id), Or(Or(name, Null), Str(value))) == Some(id)
    ensures Entry(k, Obj(PlainEntry(id, name, value))) == Some(Obj(PlainEntry(id, name, value)))
  {
    var e := PlainEntry(id, name, value);
    assert Get(e, "value") == Str(value) && Get(e, "id") == Str(id) && Get(e, "friendly_name") == name
      && Get(e, "name") == Null;
  }

  lemma {:induction false} EntriesStable(k: Kind, items: seq<Json>, ids: set<Json>)
    requires Entries(k, items, ids).Some?
    ensures Entries(k, Entries(k, items, ids).value, ids) == Entries(k, items, ids)
  {
    if items != [] {
      var one := Entry(k, items[0]).value;
      EntryStable(k, items[0]);
      EntriesStable(k, items[1..], ids + {IdOf(one)});
      var rest := Entries(k, items[1..], ids + {IdOf(one)}).value;
      assert ([one] + rest)[1..] == rest;
    }
  }

  function PlainGroup(id: string, name: Json, description: Json, entries: seq<Json>): Object {
    map["id" := Str(id), "friendly_name" := name, "description" := description, "entries" := List(entries)]
  }

  lemma PlainGroupStable(k: Kind, id: string, name: Json, description: Json, entries: seq<Json>)
    requires name.Str? && description.Str? && Entries(k, entries, {}) == Some(entries)
    requires IdentifierOf(Str(id), Or(name, Null)) == Some(id)
    ensures Group(k, Obj(PlainGroup(id, name, description, entries)))
      == Some(Obj(PlainGroup(id, name, description, entries)))
  {
    PlainGroupFields(id, name, description, entries);
  }

  lemma PlainGroupFields(id: string, name: Json, description: Json, entries: seq<Json>)
    ensures var g := PlainGroup(id, name, description, entries);
      && g.Keys <= {"id", "name", "friendly_name", "description", "entries"}
      && Get(g, "id") == Str(id) && Get(g, "friendly_name") == name && Get(g, "name") == Null
      && GetOr(g, "friendly_name", Null) == name
      && Get(g, "description") == description && GetOr(g, "entries", List([])) == List(entries)
  {
  }

  lemma GroupStable(k: Kind, j: Json)
    requires Group(k, j).Some?
    ensures Group(k, Group(k, j).value) == Group(k, j)
  {
    var g := j.fields;
    var fallback := Or(Get(g, "friendly_name"), Get(g, "name"));
    var id := IdentifierOf(Get(g, "id"), fallback).value;
    var listed := GetOr(g, "entries", List([]));
    var entries := Entries(k, listed.items, {}).value;
    var name := Text(GetOr(g, "friendly_name", Get(g, "name")), id).value;
    var description := Text(Get(g, "description"), "").value;
    EntriesStable(k, listed.items, {});
    IdentifierOfStable(Get(g, "id"), fallback, Or(name, Null));
    assert Group(k, j) == Some(Obj(PlainGroup(id, name, description, entries)));
    PlainGroupStable(k, id, name, description, entries);
  }

  lemma {:induction false} GroupListStable(k: Kind, items: seq<Json>, ids: set<Json>)
    requires GroupList(k, items, ids).Some?
    ensures GroupList(k, GroupList(k, items, ids).value, ids) == GroupList(k, items, ids)
  {
    if items != [] {
      var one := Group(k, items[0]).value;
      GroupStable(k, items[0]);
      GroupListStable(k, items[1..], ids + {IdOf(one)});
      var rest := GroupList(k, items[1..], ids + {IdOf(one)}).value;
      assert ([one] + rest)[1..] == rest;
    }
  }

  /** Normalised groups are normal. */
  lemma GroupsStable(j: Json)
    requires Groups(j).Some?
    ensures Groups(Obj(Groups(j).value)) == Groups(j)
  {
    var g := Groups(j).value;
    GroupListStable(ChannelHashes, GetOr(j.fields, "channel_hashes", List([])).items, {});
    GroupListStable(PublicKeys, GetOr(j.fields, "pubkeys", List([])).items, {});
    assert g["channel_hashes"] == List(GroupsOf(ChannelHashes, j.fields).value);
    assert g["pubkeys"] == List(GroupsOf(PublicKeys, j.fields).value);
  }

  // ---------------------------------------------------------------- conditions

  lemma ComparisonStable(c: Object, objects: Object)
    requires Comparison(c, objects).Some?
    ensures var j := Comparison(c, objects).value; j.Obj? && Leaf(j.fields) && Comparison(j.fields, objects) == Some(j)
  {
    ComparisonShape(c, objects);
    var name := Unaliased(GetOr(c, "op", Str("equals")).s);
    NoAlias(name);
    PlainLeafFacts(c["field"], name, c["value"]);
  }

  lemma {:induction false} ConditionStable(j: Json, objects: Object, depth: nat)
    requires Condition(j, objects, depth).Some?
    ensures Condition(Condition(j, objects, depth).value, objects, depth) == Condition(j, objects, depth)
    decreases 17 - depth, 0
  {
    if "all" in j.fields || "any" in j.fields {
      var branch := if "all" in j.fields then "all" else "any";
      var items := j.fields[branch].items;
      ConditionsStable(items, objects, depth + 1);
    } else {
      ComparisonStable(j.fields, objects);
    }
  }

  lemma {:induction false} ConditionsStable(items: seq<Json>, objects: Object, depth: nat)
    requires depth <= MAX_DEPTH + 1 && Conditions(items, objects, depth).Some?
    ensures var items' := Conditions(items, objects, depth).value;
      Conditions(items', objects, depth) == Some(items') && |items'| == |items|
    decreases 17 - depth, |items|
  {
    if items != [] {
      ConditionStable(items[0], objects, depth);
      ConditionsStable(items[1..], objects, depth);
      var (one, rest) := (Condition(items[0], objects, depth).value, Conditions(items[1..], objects, depth).value);
      assert ([one] + rest)[1..] == rest;
    }
  }

  // ---------------------------------------------------------------- rules

  lemma RuleChecks(j: Json, objects: Object, index: nat, seen: set<Json>)
    requires Rule(j, objects, index, seen).Some?
    ensures j.fields.Keys <= {"id", "name", "enabled", "if", "then", "action"}
    ensures var id := GetOr(j.fields, "id", Int(index + 1)); (id.Int? || (id.Str? && id.s != "")) && id !in seen
    ensures "name" in j.fields ==> j.fields["name"].Null? || j.fields["name"].Str?
  {
  }

  lemma PlainRuleKeys(rule: Object, id: Json, enabled: Json, action: string, condition: Json)
    requires rule.Keys <= {"id", "name", "enabled", "if", "then", "action"}
    ensures var r := PlainRule(rule, id, enabled, action, condition);
      && r.Keys <= {"id", "name", "enabled", "if", "then"}
      && ("name" in r <==> "name" in rule) && ("name" in r ==> r["name"] == rule["name"])
      && PlainRule(r, id, enabled, action, condition) == r
  {
  }

  lemma RuleStable(j: Json, objects: Object, index: nat, seen: set<Json>, again: nat)
    requires Rule(j, objects, index, seen).Some?
    ensures var r := Rule(j, objects, index, seen); Rule(r.value, objects, again, seen) == r
  {
    RuleShape(j, objects, index, seen);
    RuleChecks(j, objects, index, seen);
    var id := GetOr(j.fields, "id", Int(index + 1));
    var enabled := GetOr(j.fields, "enabled", Bool(true));
    var action := NamedAction(j.fields).value;
    var c := Condition(Get(j.fields, "if"), objects, 0).value;
    var r := PlainRule(j.fields, id, enabled, action, c);
    ActionMeaning(j.fields);
    ConditionStable(Get(j.fields, "if"), objects, 0);
    PlainRuleFacts(j.fields, id, enabled, action, c);
    PlainRuleKeys(j.fields, id, enabled, action, c);
    PlainRuleStable(r, id, enabled, action, c, objects, again, seen);
  }

  lemma PlainRuleStable(r: Object, id: Json, enabled: Json, action: string, c: Json, objects: Object, index: nat,
      seen: set<Json>)
    requires r.Keys <= {"id", "name", "enabled", "if", "then"} && PlainRule(r, id, enabled, action, c) == r
    requires (id.Int? || (id.Str? && id.s != "")) && id !in seen && enabled.Bool?
    requires "name" in r ==> r["name"].Null? || r["name"].Str?
    requires NamedAction(r) == Some(action) && Condition(c, objects, 0) == Some(c)
    ensures Rule(Obj(r), objects, index, seen) == Some(Obj(r))
  {
    PlainRuleFacts(r, id, enabled, action, c);
    assert "id" in r && "enabled" in r && "if" in r;
  }

  lemma {:induction false} RulesStable(rules: seq<Json>, objects: Object, index: nat, seen: set<Json>)
    requires Rules(rules, objects, index, seen).Some?
    ensures var rules' := Rules(rules, objects, index, seen).value; Rules(rules', objects, index, seen) == Some(rules')
    decreases |rules|
  {
    if rules != [] {
      var one := Rule(rules[0], objects, index, seen).value;
      RuleStable(rules[0], objects, index, seen, index);
      RulesStable(rules[1..], objects, index + 1, seen + {IdOf(one)});
      var rest := Rules(rules[1..], objects, index + 1, seen + {IdOf(one)}).value;
      assert ([one] + rest)[1..] == rest;
    }
  }

  // ---------------------------------------------------------------- the projection

  /** The values of normalised entries are texts. */
  predicate TextValues(items: seq<Json>) {
    items == [] || (items[0].Str? && TextValues(items[1..]))
  }

  lemma {:induction false} EntryTexts(k: Kind, items: seq<Json>, ids: set<Json>)
    requires Entries(k, items, ids).Some?
    ensures TextValues(ValuesOf(Entries(k, items, ids).value))
  {
    if items != [] {
      var one := Entry(k, items[0]).value;
      EntryTexts(k, items[1..], ids + {IdOf(one)});
      var rest := Entries(k, items[1..], ids + {IdOf(one)}).value;
      assert ([one] + rest)[1..] == rest;
      assert one.Obj? && Get(one.fields, "value").Str?;
      assert ValuesOf([one] + rest) == [Get(one.fields, "value")] + ValuesOf(rest);
      assert ([Get(one.fields, "value")] + ValuesOf(rest))[1..] == ValuesOf(rest);
    }
  }

  lemma {:induction false} TextsArePlain(items: seq<Json>, depth: nat)
    requires TextValues(items) && depth <= MAX_DEPTH
    ensures forall i | i in items :: PlainValue(i, depth)
  {
    if items != [] {
      TextsArePlain(items[1..], depth);
    }
  }

  /** Every projected group is a list of texts. */
  predicate ListsOfTexts(o: Object) {
    forall k | k in o :: o[k].List? && TextValues(o[k].items)
  }

  lemma GroupTexts(k: Kind, j: Json)
    requires Group(k, j).Some?
    ensures Group(k, j).value.Obj? && TextValues(EntryValues(Get(Group(k, j).value.fields, "entries")))
  {
    var listed := GetOr(j.fields, "entries", List([]));
    EntryTexts(k, listed.items, {});
  }

  lemma {:induction false} ProjectionTexts(k: Kind, items: seq<Json>, ids: set<Json>)
    requires GroupList(k, items, ids).Some?
    ensures ListsOfTexts(Projection(GroupList(k, items, ids).value))
  {
    if items != [] {
      var one := Group(k, items[0]).value;
      GroupTexts(k, items[0]);
      ProjectionTexts(k, items[1..], ids + {IdOf(one)});
      var rest := GroupList(k, items[1..], ids + {IdOf(one)}).value;
      assert ([one] + rest)[1..] == rest;
    }
  }

  lemma ProjectionIsPlain(o: Object)
    requires ListsOfTexts(o)
    ensures PlainValue(Obj(o), 1)
  {
    forall k | k in o ensures PlainValue(o[k], 2) {
      TextsArePlain(o[k].items, 3);
    }
  }

  lemma ProjectedIsPlain(objects: Object, groups: Json)
    requires PlainValue(Obj(objects), 0) && Groups(groups).Some?
    ensures PlainValue(Obj(Projected(objects, Groups(groups).value)), 0)
  {
    var g := Groups(groups).value;
    ProjectionTexts(ChannelHashes, GetOr(groups.fields, "channel_hashes", List([])).items, {});
    ProjectionTexts(PublicKeys, GetOr(groups.fields, "pubkeys", List([])).items, {});
    ProjectionIsPlain(Projection(g["channel_hashes"].items));
    ProjectionIsPlain(Projection(g["pubkeys"].items));
    var p := Projected(objects, g);
    forall k | k in p ensures PlainValue(p[k], 1) {
      assert k != "channel_hash_groups" && k != "pubkey_groups" ==> k in objects && p[k] == objects[k];
    }
  }

  // ---------------------------------------------------------------- documents

  lemma PayloadConfig(d: Document)
    requires d.engine.Keys == DEFAULTS.Keys
    ensures var p := Payload(d).fields;
      EngineConfig(p) == Some(d.engine) && GetOr(p, "groups", Obj(map[])) == Obj(d.groups) && CarriesGroups(p, None)
      && DEFAULTS + d.engine == d.engine
  {
    var p := Payload(d).fields;
    assert p["policy_engine"] == Obj(d.engine) && p["groups"] == Obj(d.groups);
  }

  lemma SameEngine(engine: Object)
    requires GoodConfig(engine)
    ensures engine["objects" := Obj(engine["objects"].fields)]["rules" := List(engine["rules"].items)] == engine
  {
  }

  lemma PlainDocumentStable(d: Document)
    requires d.engine.Keys == DEFAULTS.Keys && GoodConfig(d.engine) && Groups(Obj(d.groups)) == Some(d.groups)
    requires Projected(d.engine["objects"].fields, d.groups) == d.engine["objects"].fields
    requires Rules(d.engine["rules"].items, d.engine["objects"].fields, 0, {}) == Some(d.engine["rules"].items)
    ensures Normalize(Payload(d), None, true) == Some(d)
  {
    PayloadConfig(d);
    SameEngine(d.engine);
  }

  lemma ObjectsArePlain(objects: Object, groups: Json, project: bool)
    requires PlainValue(Obj(objects), 0) && Groups(groups).Some?
    ensures PlainValue(Obj(Objects(objects, Groups(groups).value, project)), 0)
  {
    if project {
      ProjectedIsPlain(objects, groups);
    }
  }

  lemma ConfigParts(cfg: Object, objects: Object, rules: seq<Json>)
    requires GoodConfig(cfg) && cfg.Keys == DEFAULTS.Keys && PlainValue(Obj(objects), 0)
    ensures var engine := cfg["objects" := Obj(objects)]["rules" := List(rules)];
      && GoodConfig(engine) && engine.Keys == DEFAULTS.Keys
      && engine["objects"] == Obj(objects) && engine["rules"] == List(rules)
  {
  }

  /** What an accepted document is normalised to is in normal form itself. */
  lemma DocumentFacts(j: Json, existing: Option<Json>, project: bool)
    requires Normalize(j, existing, project).Some?
    ensures var d := Normalize(j, existing, project).value;
      && d.engine.Keys == DEFAULTS.Keys && GoodConfig(d.engine) && Groups(Obj(d.groups)) == Some(d.groups)
      && Rules(d.engine["rules"].items, d.engine["objects"].fields, 0, {}) == Some(d.engine["rules"].items)
  {
    NormalShape(j, existing, project);
    var d := Normalize(j, existing, project).value;
    var groups := GetOr(j.fields, "groups", if existing.Some? then existing.value else Obj(map[]));
    var cfg := DEFAULTS + EngineConfig(j.fields).value;
    var objects := Objects(cfg["objects"].fields, d.groups, project && CarriesGroups(j.fields, existing));
    GroupsStable(groups);
    ObjectsArePlain(cfg["objects"].fields, groups, project && CarriesGroups(j.fields, existing));
    RulesStable(cfg["rules"].items, objects, 0, {});
    ConfigParts(cfg, objects, Rules(cfg["rules"].items, objects, 0, {}).value);
  }

  lemma SecondObjects(d: Document)
    requires Normalize(Payload(d), None, true) == Some(d) && d.engine.Keys == DEFAULTS.Keys && GoodConfig(d.engine)
    requires Groups(Obj(d.groups)) == Some(d.groups)
    ensures Projected(d.engine["objects"].fields, d.groups) == d.engine["objects"].fields
  {
    PayloadConfig(d);
    NormalShape(Payload(d), None, true);
  }

  /** A normalised document is a fixed point exactly if its objects already hold its groups' projections. */
  lemma FixedPointIff(j: Json, existing: Option<Json>, project: bool)
    requires Normalize(j, existing, project).Some?
    ensures var d := Normalize(j, existing, project).value;
      && d.engine.Keys == DEFAULTS.Keys && GoodConfig(d.engine) && Groups(Obj(d.groups)) == Some(d.groups)
      && (Normalize(Payload(d), None, true) == Some(d)
          <==> Projected(d.engine["objects"].fields, d.groups) == d.engine["objects"].fields)
  {
    var d := Normalize(j, existing, project).value;
    DocumentFacts(j, existing, project);
    if Projected(d.engine["objects"].fields, d.groups) == d.engine["objects"].fields {
      PlainDocumentStable(d);
    } else if Normalize(Payload(d), None, true) == Some(d) {
      SecondObjects(d);
    }
  }

  /** Do the objects the document came with already hold its groups: under each group's id the values of its
      entries, and nothing else? */
  ghost predicate CameProjected(j: Json, groups: Object) {
    && GroupsByKind(groups) && AreGroups(groups["channel_hashes"].items) && AreGroups(groups["pubkeys"].items)
    && HoldsGroups(GivenObjects(j), groups["channel_hashes"].items, groups["pubkeys"].items)
  }

  /** In terms of the document itself: its normal form is a fixed point exactly if the first pass projected
      its groups, or had nothing to add. */
  lemma NormalisationIsStableIff(j: Json, existing: Option<Json>, project: bool)
    requires Normalize(j, existing, project).Some?
    ensures var d := Normalize(j, existing, project).value;
      Normalize(Payload(d), None, true) == Some(d)
      <==> (project && ("groups" in j.fields || existing.Some?)) || CameProjected(j, d.groups)
  {
    var d := Normalize(j, existing, project).value;
    NormalShape(j, existing, project);
    FixedPointIff(j, existing, project);
    AcceptedAreGroups(GetOr(j.fields, "groups", if existing.Some? then existing.value else Obj(map[])));
    NormalObjects(j, existing, project);
    ProjectedTwice(GivenObjects(j), d.groups);
    ProjectedHolds(GivenObjects(j), d.groups);
  }

  /** So every document that came with groups has a stable normal form. */
  lemma NormalisationIsStable(j: Json, existing: Option<Json>)
    requires Normalize(j, existing, true).Some? && CarriesGroups(j.fields, existing)
    ensures Normalize(Payload(Normalize(j, existing, true).value), None, true) == Normalize(j, existing, true)
  {
    NormalisationIsStableIff(j, existing, true);
  }

  lemma ProjectedTwice(objects: Object, groups: Object)
    requires "channel_hashes" in groups && groups["channel_hashes"].List?
    requires "pubkeys" in groups && groups["pubkeys"].List?
    ensures Projected(Projected(objects, groups), groups) == Projected(objects, groups)
  {
  }

  /** The empty document came without, and is none: the second pass adds the two projections. */
  lemma FirstProjectionAdds()
    ensures var d := Document(DEFAULTS, map["channel_hashes" := List([]), "pubkeys" := List([])]);
      Normalize(Obj(map[]), None, true) == Some(d) && Normalize(Payload(d), None, true) != Some(d)
  {
    var groups: Object := map["channel_hashes" := List([]), "pubkeys" := List([])];
    var empty: Object := map[];
    assert empty - {"groups"} == empty && DEFAULTS + empty == DEFAULTS;
    assert Groups(Obj(empty)) == Some(groups);
    assert DEFAULTS["objects" := Obj(empty)]["rules" := List([])] == DEFAULTS;
    NormalisationIsStableIff(Obj(empty), None, true);
    assert "pubkey_groups" !in GivenObjects(Obj(empty));
  }
}
