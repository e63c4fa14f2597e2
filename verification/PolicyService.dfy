/**
 Validation and normalisation of policy documents (policy_service.py). A function gives None where the source
 raises a PolicyDocumentError.
 */
module PolicyService {
  import opened Wrappers
  import opened PolicyText
  import opened PolicyEngine

  const NUMERIC_FIELDS: set<string> := {
    "route_type", "payload_type", "payload_length", "path_hash_size", "hop_count",
    "rssi", "snr", "transport_code_0", "transport_code_1" }
  const BOOLEAN_FIELDS: set<string> := {"local_transmission", "channel_decryptable"}
  const STRING_FIELDS: set<string> := {
    "mode", "channel_sender", "channel_message_body", "payload_hex", "ingress", "channel" }

  const SUPPORTED_OPS: set<string> := {
    "equals", "not_equals", "greater_than", "greater_or_equal", "less_than", "less_or_equal",
    "contains", "in", "intersects", "starts_with", "ends_with" }

  const MAX_DEPTH := 16

  // ---------------------------------------------------------------- values

  function Pow2(n: nat): int {
    if n == 0 then 1 else 2 * Pow2(n - 1)
  }

  /** `_finite_number`: an integer too large for a double is none. */
  predicate FiniteNumber(j: Json) {
    match j
    case Int(n) => var limit := Pow2(1024) - Pow2(970); -limit < n < limit
    case Float(_) => true
    case _ => false
  }

  /** `_validate_object_value` */
  predicate PlainValue(j: Json, depth: nat)
    decreases j
  {
    depth <= MAX_DEPTH &&
    match j
    case NonFinite => false
    case List(items) => forall i | i in items :: PlainValue(i, depth + 1)
    case Obj(m) => forall k | k in m :: PlainValue(m[k], depth + 1)
    case _ => true
  }

  function Text(j: Json, default: string): Option<Json> {
    match j
    case Null => Some(Str(default))
    case Str(_) => Some(j)
    case _ => None
  }

  function Decimal(n: int): string {
    if n < 0 then "-" + Natural(-n) else Natural(n)
  }

  function Natural(n: nat): string {
    var d := ['0' + (n % 10) as char];
    if n < 10 then d else Natural(n / 10) + d
  }

  datatype Kind = ChannelHashes | PublicKeys

  function KindName(k: Kind): string {
    match k
    case ChannelHashes => "channel_hashes"
    case PublicKeys => "pubkeys"
  }

  /** `normalize_entry_value` */
  function EntryValue(k: Kind, j: Json): Option<string> {
    match k
    case PublicKeys => if j.Str? then PublicKey(j.s) else None
    case ChannelHashes =>
      if !j.Str? && !j.Int? then None
      else
        var secret := Secret(if j.Str? then j.s else Decimal(j.n));
        if secret.Some? then Some("0x" + Upper(secret.value))
        else if j.Str? then HashOfText(j.s)
        else if 0 <= j.n <= 255 then Some(ByteText(j.n)) else None
  }

  // ---------------------------------------------------------------- groups

  /** `_identifier(value, fallback)` */
  function IdentifierOf(value: Json, fallback: Json): Option<string> {
    var v := if value.Null? || value == Str("") then fallback else value;
    if v.Str? then Identifier(v.s) else None
  }

  /** a or b or c */
  function Or(a: Json, b: Json): Json {
    if Truthy(a) then a else b
  }

  function Entry(k: Kind, j: Json): Option<Json> {
    if !j.Obj? || !(j.fields.Keys <= {"id", "name", "friendly_name", "value"}) then None
    else
      var e := j.fields;
      var value := EntryValue(k, Get(e, "value"));
      if value.None? then None
      else
        var id := IdentifierOf(Get(e, "id"), Or(Or(Get(e, "friendly_name"), Get(e, "name")), Str(value.value)));
        if id.None? then None
        else
          var name := Text(GetOr(e, "friendly_name", Get(e, "name")), id.value);
          if name.None? then None
          else Some(Obj(map["id" := Str(id.value), "friendly_name" := name.value, "value" := Str(value.value)]))
  }

  function IdOf(j: Json): Json {
    if j.Obj? then Get(j.fields, "id") else Null
  }

  /** Every entry of a group must have an id of its own. */
  function Entries(k: Kind, items: seq<Json>, ids: set<Json>): Option<seq<Json>> {
    if items == [] then Some([])
    else
      var one := Entry(k, items[0]);
      if one.None? || IdOf(one.value) in ids then None
      else
        var rest := Entries(k, items[1..], ids + {IdOf(one.value)});
        if rest.None? then None else Some([one.value] + rest.value)
  }

  function Group(k: Kind, j: Json): Option<Json> {
    if !j.Obj? || !(j.fields.Keys <= {"id", "name", "friendly_name", "description", "entries"}) then None
    else
      var g := j.fields;
      var id := IdentifierOf(Get(g, "id"), Or(Get(g, "friendly_name"), Get(g, "name")));
      var listed := GetOr(g, "entries", List([]));
      if id.None? || !listed.List? then None
      else
        var entries := Entries(k, listed.items, {});
        var name := Text(GetOr(g, "friendly_name", Get(g, "name")), id.value);
        var description := Text(Get(g, "description"), "");
        if entries.None? || name.None? || description.None? then None
        else Some(Obj(map["id" := Str(id.value), "friendly_name" := name.value, "description" := description.value,
                          "entries" := List(entries.value)]))
  }

  /** Every group of a kind must have an id of its own. */
  function GroupList(k: Kind, items: seq<Json>, ids: set<Json>): Option<seq<Json>> {
    if items == [] then Some([])
    else
      var one := Group(k, items[0]);
      if one.None? || IdOf(one.value) in ids then None
      else
        var rest := GroupList(k, items[1..], ids + {IdOf(one.value)});
        if rest.None? then None else Some([one.value] + rest.value)
  }

  function GroupsOf(k: Kind, groups: Object): Option<seq<Json>> {
    var listed := GetOr(groups, KindName(k), List([]));
    if listed.List? then GroupList(k, listed.items, {}) else None
  }

  /** `normalize_groups` */
  function Groups(j: Json): Option<Object> {
    if !j.Obj? || !(j.fields.Keys <= {"channel_hashes", "pubkeys"}) then None
    else
      var (channels, keys) := (GroupsOf(ChannelHashes, j.fields), GroupsOf(PublicKeys, j.fields));
      if channels.None? || keys.None? then None
      else Some(map["channel_hashes" := List(channels.value), "pubkeys" := List(keys.value)])
  }

  // ---------------------------------------------------------------- conditions

  /** `_normalize_path_hash_value`: an error, no value, or the width of the hash. */
  datatype PathHash = Bad | Nothing | Width(digits: nat)

  function PathHashOf(j: Json): PathHash {
    match j
    case Null => Nothing
    case Int(n) =>
      if n < 0 then Nothing else if n <= 0xFF then Width(2) else if n <= 0xFFFF then Width(4)
      else if n <= 0xFF_FFFF then Width(6) else Bad
    case Str(s) =>
      var raw := Unprefixed(Strip(s));
      if raw == "" then Nothing
      else if |raw| in {2, 4, 6} && AllHex(raw) then Width(|raw|) else Bad
    case _ => Bad
  }

  /** All hashes of a list that have a value have the same width. */
  predicate PathHashesFit(items: seq<Json>, width: Option<nat>)
  {
    items == [] ||
    match PathHashOf(items[0])
    case Bad => false
    case Nothing => PathHashesFit(items[1..], width)
    case Width(w) => (width.None? || width.value == w) && PathHashesFit(items[1..], Some(w))
  }

  predicate NumericFits(op: string, values: seq<Json>) {
    op in {"equals", "not_equals", "greater_than", "greater_or_equal", "less_than", "less_or_equal", "in"}
    && forall v | v in values :: FiniteNumber(v)
  }

  predicate PathHashFits(op: string, resolved: Json, values: seq<Json>) {
    && op in {"contains", "intersects"}
    && (forall v | v in values :: !v.Null? && !v.Bool?)
    && if resolved.List? then PathHashesFit(values, None) else PathHashOf(resolved).Width?
  }

  predicate ChannelHashFits(op: string, values: seq<Json>) {
    op in {"equals", "not_equals", "in"} && forall v | v in values :: EntryValue(ChannelHashes, v).Some?
  }

  predicate StringFits(op: string, values: seq<Json>) {
    op in {"equals", "not_equals", "contains", "starts_with", "ends_with", "in"} && forall v | v in values :: v.Str?
  }

  /** Do the operator and the resolved value suit the field? */
  predicate Suits(field: string, op: string, resolved: Json) {
    var values := if resolved.List? then resolved.items else [resolved];
    && (op in {"in", "intersects"} <==> resolved.List?)
    && if field in NUMERIC_FIELDS then NumericFits(op, values)
       else if field in BOOLEAN_FIELDS then op in {"equals", "not_equals"} && resolved.Bool?
       else if field == "path_hashes" then PathHashFits(op, resolved, values)
       else if field == "channel_hash" then ChannelHashFits(op, values)
       else field in STRING_FIELDS && StringFits(op, values)
  }

  /** The alias table. */
  function Unaliased(op: string): string {
    if op in {"eq", "=="} then "equals"
    else if op in {"ne", "!="} then "not_equals"
    else if op in {"gt", ">"} then "greater_than"
    else if op in {"gte", ">="} then "greater_or_equal"
    else if op in {"lt", "<"} then "less_than"
    else if op in {"lte", "<="} then "less_or_equal"
    else if op == "is_in" then "in"
    else if op == "overlaps" then "intersects"
    else op
  }

  function Comparison(c: Object, objects: Object): Option<Json> {
    var (field, op) := (Get(c, "field"), GetOr(c, "op", Str("equals")));
    if !(c.Keys <= {"field", "op", "value"}) || !field.Str? || !op.Str? || "value" !in c then None
    else
      var name := Unaliased(op.s);
      var resolved := Resolve(objects, c["value"]);
      if name !in SUPPORTED_OPS || resolved.None? || !Suits(field.s, name, resolved.value) then None
      else Some(Obj(PlainLeaf(field, name, c["value"])))
  }

  function PlainLeaf(field: Json, op: string, value: Json): Object {
    map["field" := field, "op" := Str(op), "value" := value]
  }

  /** `_validate_condition` */
  function Condition(j: Json, objects: Object, depth: nat): Option<Json>
    decreases 17 - depth, 0
  {
    if !j.Obj? || depth > MAX_DEPTH then None
    else if "all" in j.fields || "any" in j.fields then
      if |j.fields| != 1 then None
      else
        var branch := if "all" in j.fields then "all" else "any";
        var listed := j.fields[branch];
        if !listed.List? || listed.items == [] then None
        else
          var items := Conditions(listed.items, objects, depth + 1);
          if items.None? then None else Some(Obj(map[branch := List(items.value)]))
    else Comparison(j.fields, objects)
  }

  function Conditions(items: seq<Json>, objects: Object, depth: nat): Option<seq<Json>>
    requires depth <= MAX_DEPTH + 1
    decreases 17 - depth, |items|
  {
    if items == [] then Some([])
    else
      var (one, rest) := (Condition(items[0], objects, depth), Conditions(items[1..], objects, depth));
      if one.None? || rest.None? then None else Some([one.value] + rest.value)
  }

  // ---------------------------------------------------------------- rules and documents

  /** The action that a rule names, in its `then` block or beside it. */
  function NamedAction(rule: Object): Option<string> {
    var block := GetOr(rule, "then", GetOr(rule, "action", Str("allow")));
    if block.Obj? && !(block.fields.Keys <= {"action"}) then None
    else
      var action := if block.Obj? then Get(block.fields, "action") else block;
      if !action.Str? || action.s !in ACTIONS || ("action" in rule && rule["action"] != action) then None
      else Some(action.s)
  }

  function Rule(j: Json, objects: Object, index: nat, seen: set<Json>): Option<Json> {
    if !j.Obj? || !(j.fields.Keys <= {"id", "name", "enabled", "if", "then", "action"}) then None
    else
      var rule := j.fields;
      var (id, enabled) := (GetOr(rule, "id", Int(index + 1)), GetOr(rule, "enabled", Bool(true)));
      var (action, condition) := (NamedAction(rule), Condition(Get(rule, "if"), objects, 0));
      if !(id.Int? || (id.Str? && id.s != "")) || id in seen || !enabled.Bool? then None
      else if "name" in rule && !rule["name"].Null? && !rule["name"].Str? then None
      else if action.None? || condition.None? then None
      else Some(Obj(PlainRule(rule, id, enabled, action.value, condition.value)))
  }

  function PlainRule(rule: Object, id: Json, enabled: Json, action: string, condition: Json): Object {
    var outcome := Obj(map["action" := Str(action)]);
    (rule - {"action"})["id" := id]["enabled" := enabled]["then" := outcome]["if" := condition]
  }

  function Rules(rules: seq<Json>, objects: Object, index: nat, seen: set<Json>): Option<seq<Json>> {
    if rules == [] then Some([])
    else
      var one := Rule(rules[0], objects, index, seen);
      if one.None? then None
      else
        var rest := Rules(rules[1..], objects, index + 1, seen + {IdOf(one.value)});
        if rest.None? then None else Some([one.value] + rest.value)
  }

  /** A group's entries as the list that conditions refer to. */
  function Projection(groups: seq<Json>): Object {
    if groups == [] then map[]
    else
      var rest := Projection(groups[1..]);
      var id := IdOf(groups[0]);
      if !id.Str? || id.s in rest then rest else rest[id.s := List(EntryValues(Get(groups[0].fields, "entries")))]
  }

  function EntryValues(entries: Json): seq<Json> {
    if entries.List? then ValuesOf(entries.items) else []
  }

  function ValuesOf(entries: seq<Json>): seq<Json> {
    if entries == [] then []
    else [if entries[0].Obj? then Get(entries[0].fields, "value") else Null] + ValuesOf(entries[1..])
  }

  function Projected(objects: Object, groups: Object): Object
    requires "channel_hashes" in groups && groups["channel_hashes"].List?
    requires "pubkeys" in groups && groups["pubkeys"].List?
  {
    objects["channel_hash_groups" := Obj(Projection(groups["channel_hashes"].items))]
      ["pubkey_groups" := Obj(Projection(groups["pubkeys"].items))]
  }

  /** The engine configuration a document carries, before defaults. */
  function EngineConfig(payload: Object): Option<Object> {
    if "policy_engine" in payload then
      if payload.Keys <= {"policy_engine", "groups"} && payload["policy_engine"].Obj?
        then Some(payload["policy_engine"].fields)
      else None
    else Some(payload - {"groups"})
  }

  const DEFAULTS: Object := map[
    "enabled" := Bool(false), "default_action" := Str("allow"), "rules" := List([]), "objects" := Obj(map[]) ]

  datatype Document = Document(engine: Object, groups: Object)

  function Payload(d: Document): Json {
    Obj(map["policy_engine" := Obj(d.engine), "groups" := Obj(d.groups)])
  }

  predicate CarriesGroups(payload: Object, existing: Option<Json>) {
    "groups" in payload || existing.Some?
  }

  predicate GoodConfig(cfg: Object) {
    && DEFAULTS.Keys <= cfg.Keys
    && cfg["enabled"].Bool? && cfg["default_action"].Str? && cfg["default_action"].s in ACTIONS
    && cfg["objects"].Obj? && PlainValue(cfg["objects"], 0) && cfg["rules"].List?
  }

  function Objects(objects: Object, groups: Object, project: bool): Object
    requires project ==> "channel_hashes" in groups && groups["channel_hashes"].List?
    requires project ==> "pubkeys" in groups && groups["pubkeys"].List?
  {
    if project then Projected(objects, groups) else objects
  }

  /** `normalize_document` */
  function Normalize(j: Json, existing: Option<Json>, project: bool): Option<Document> {
    if !j.Obj? then None
    else
      var given := EngineConfig(j.fields);
      if given.None? || !(given.value.Keys <= DEFAULTS.Keys) then None
      else
        var cfg := DEFAULTS + given.value;
        var groups := Groups(GetOr(j.fields, "groups", if existing.Some? then existing.value else Obj(map[])));
        if !GoodConfig(cfg) || groups.None? then None
        else
          var objects := Objects(cfg["objects"].fields, groups.value, project && CarriesGroups(j.fields, existing));
          var rules := Rules(cfg["rules"].items, objects, 0, {});
          if rules.None? then None
          else Some(Document(cfg["objects" := Obj(objects)]["rules" := List(rules.value)], groups.value))
  }

  // ---------------------------------------------------------------- the loops

  function After(done: seq<Json>, rest: Option<seq<Json>>): Option<seq<Json>> {
    if rest.None? then None else Some(done + rest.value)
  }

  lemma AfterCons(done: seq<Json>, one: Json, rest: Option<seq<Json>>)
    ensures After(done, if rest.None? then None else Some([one] + rest.value)) == After(done + [one], rest)
  {
    if rest.Some? {
      assert done + ([one] + rest.value) == done + [one] + rest.value;
    }
  }

  lemma AfterEnds(done: seq<Json>, rest: Option<seq<Json>>)
    ensures After([], rest) == rest && After(done, Some([])) == Some(done)
  {
    if rest.Some? {
      assert [] + rest.value == rest.value;
    }
    assert done + [] == done;
  }

  lemma EntriesBegin(k: Kind, items: seq<Json>)
    ensures After([], Entries(k, items[0..], {})) == Entries(k, items, {})
  {
    assert items[0..] == items;
    AfterEnds([], Entries(k, items, {}));
  }

  lemma EntriesStep(k: Kind, items: seq<Json>, i: nat, ids: set<Json>, done: seq<Json>, one: Option<Json>,
      all: Option<seq<Json>>)
    requires i < |items| && one == Entry(k, items[i]) && After(done, Entries(k, items[i..], ids)) == all
    ensures one.None? || IdOf(one.value) in ids ==> all == None
    ensures one.Some? && IdOf(one.value) !in ids
      ==> After(done + [one.value], Entries(k, items[i + 1..], ids + {IdOf(one.value)})) == all
  {
    assert items[i..][1..] == items[i + 1..];
    if one.Some? {
      AfterCons(done, one.value, Entries(k, items[i + 1..], ids + {IdOf(one.value)}));
    }
  }

  lemma EntriesEnd(k: Kind, items: seq<Json>, ids: set<Json>, done: seq<Json>)
    ensures After(done, Entries(k, items[|items|..], ids)) == Some(done)
  {
    AfterEnds(done, None);
  }

  /** The loop over the entries of a group. */
  method NormalizeEntries(k: Kind, items: seq<Json>) returns (r: Option<seq<Json>>)
    ensures r == Entries(k, items, {})
  {
    ghost var all := Entries(k, items, {});
    EntriesBegin(k, items);
    var ids, done, i := {}, [], 0;
    while i < |items|
      invariant 0 <= i <= |items|
      invariant After(done, Entries(k, items[i..], ids)) == all
    {
      var one := Entry(k, items[i]);
      EntriesStep(k, items, i, ids, done, one, all);
      if one.None? || IdOf(one.value) in ids {
        return None;
      }
      ids := ids + {IdOf(one.value)};
      done := done + [one.value];
      i := i + 1;
    }
    EntriesEnd(k, items, ids, done);
    r := Some(done);
  }

  lemma GroupsBegin(k: Kind, items: seq<Json>)
    ensures After([], GroupList(k, items[0..], {})) == GroupList(k, items, {})
  {
    assert items[0..] == items;
    AfterEnds([], GroupList(k, items, {}));
  }

  lemma GroupsStep(k: Kind, items: seq<Json>, i: nat, ids: set<Json>, done: seq<Json>, one: Option<Json>,
      all: Option<seq<Json>>)
    requires i < |items| && one == Group(k, items[i]) && After(done, GroupList(k, items[i..], ids)) == all
    ensures one.None? || IdOf(one.value) in ids ==> all == None
    ensures one.Some? && IdOf(one.value) !in ids
      ==> After(done + [one.value], GroupList(k, items[i + 1..], ids + {IdOf(one.value)})) == all
  {
    assert items[i..][1..] == items[i + 1..];
    if one.Some? {
      AfterCons(done, one.value, GroupList(k, items[i + 1..], ids + {IdOf(one.value)}));
    }
  }

  lemma GroupsEnd(k: Kind, items: seq<Json>, ids: set<Json>, done: seq<Json>)
    ensures After(done, GroupList(k, items[|items|..], ids)) == Some(done)
  {
    AfterEnds(done, None);
  }

  /** The loop over the groups of a kind. */
  method NormalizeGroups(k: Kind, items: seq<Json>) returns (r: Option<seq<Json>>)
    ensures r == GroupList(k, items, {})
  {
    ghost var all := GroupList(k, items, {});
    GroupsBegin(k, items);
    var ids, done, i := {}, [], 0;
    while i < |items|
      invariant 0 <= i <= |items|
      invariant After(done, GroupList(k, items[i..], ids)) == all
    {
      var one := Group(k, items[i]);
      GroupsStep(k, items, i, ids, done, one, all);
      if one.None? || IdOf(one.value) in ids {
        return None;
      }
      ids := ids + {IdOf(one.value)};
      done := done + [one.value];
      i := i + 1;
    }
    GroupsEnd(k, items, ids, done);
    r := Some(done);
  }

  lemma RulesBegin(rules: seq<Json>, objects: Object)
    ensures After([], Rules(rules[0..], objects, 0, {})) == Rules(rules, objects, 0, {})
  {
    assert rules[0..] == rules;
    AfterEnds([], Rules(rules, objects, 0, {}));
  }

  lemma RulesStep(rules: seq<Json>, objects: Object, i: nat, seen: set<Json>, done: seq<Json>, one: Option<Json>,
      all: Option<seq<Json>>)
    requires i < |rules| && one == Rule(rules[i], objects, i, seen)
      && After(done, Rules(rules[i..], objects, i, seen)) == all
    ensures one.None? ==> all == None
    ensures one.Some? ==>
      After(done + [one.value], Rules(rules[i + 1..], objects, i + 1, seen + {IdOf(one.value)})) == all
  {
    assert rules[i..][1..] == rules[i + 1..];
    if one.Some? {
      AfterCons(done, one.value, Rules(rules[i + 1..], objects, i + 1, seen + {IdOf(one.value)}));
    }
  }

  lemma RulesEnd(rules: seq<Json>, objects: Object, seen: set<Json>, done: seq<Json>)
    ensures After(done, Rules(rules[|rules|..], objects, |rules|, seen)) == Some(done)
  {
    AfterEnds(done, None);
  }

  /** The loop over the rules. */
  method NormalizeRules(rules: seq<Json>, objects: Object) returns (r: Option<seq<Json>>)
    ensures r == Rules(rules, objects, 0, {})
  {
    ghost var all := Rules(rules, objects, 0, {});
    RulesBegin(rules, objects);
    var seen, done, i := {}, [], 0;
    while i < |rules|
      invariant 0 <= i <= |rules|
      invariant After(done, Rules(rules[i..], objects, i, seen)) == all
    {
      var one := Rule(rules[i], objects, i, seen);
      RulesStep(rules, objects, i, seen, done, one, all);
      if one.None? {
        return None;
      }
      seen := seen + {IdOf(one.value)};
      done := done + [one.value];
      i := i + 1;
    }
    RulesEnd(rules, objects, seen, done);
    r := Some(done);
  }
}
