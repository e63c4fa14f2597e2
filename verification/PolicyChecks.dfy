/**
 Which comparisons, values and conditions the policy service accepts, in tables of its own.
 */
module PolicyChecks {
  import opened Wrappers
  import opened PolicyText
  import opened PolicyEngine
  import opened PolicyService

  // ---------------------------------------------------------------- comparisons

  /** What a field holds. */
  datatype FieldKind = Number | Flag | Words | Channel | Hops | Unknown

  function KindOf(field: string): FieldKind {
    if field in {"route_type", "payload_type", "payload_length", "path_hash_size", "hop_count"} then Number
    else if field in {"rssi", "snr", "transport_code_0", "transport_code_1"} then Number
    else if field in {"local_transmission", "channel_decryptable"} then Flag
    else if field == "path_hashes" then Hops
    else if field == "channel_hash" then Channel
    else if field in {"mode", "ingress", "channel", "payload_hex"} then Words
    else if field in {"channel_sender", "channel_message_body"} then Words
    else Unknown
  }

  /** Which fields an operator applies to. */
  predicate AppliesTo(op: string, kind: FieldKind) {
    if op in {"greater_than", "greater_or_equal", "less_than", "less_or_equal"} then kind == Number
    else if op in {"starts_with", "ends_with"} then kind == Words
    else if op == "contains" then kind == Words || kind == Hops
    else if op == "intersects" then kind == Hops
    else if op == "in" then kind == Number || kind == Words || kind == Channel
    else op in {"equals", "not_equals"} && (kind == Number || kind == Flag || kind == Words || kind == Channel)
  }

  /** A value, or every value of a list, has the type of the field; hop hashes are all of one width. */
  predicate ValueFits(kind: FieldKind, v: Json) {
    var xs := if v.List? then v.items else [v];
    match kind
    case Number => forall x | x in xs :: FiniteNumber(x)
    case Flag => v.Bool?
    case Words => forall x | x in xs :: x.Str?
    case Channel => forall x | x in xs :: EntryValue(ChannelHashes, x).Some?
    case Hops =>
      && (forall x | x in xs :: !x.Null? && !x.Bool? && PathHashOf(x) != Bad)
      && (forall x, y | x in xs && y in xs :: SameWidth(x, y))
      && (!v.List? ==> PathHashOf(v).Width?)
    case Unknown => false
  }

  /** Two hop hashes that have a value have as many digits each. */
  predicate SameWidth(x: Json, y: Json) {
    PathHashOf(x).Width? && PathHashOf(y).Width? ==> PathHashOf(x).digits == PathHashOf(y).digits
  }

  /** Do field, operator and value go together? */
  predicate Typed(field: string, op: string, v: Json) {
    AppliesTo(op, KindOf(field)) && (v.List? <==> op in {"in", "intersects"}) && ValueFits(KindOf(field), v)
  }

  lemma KindIff(field: string)
    ensures field in NUMERIC_FIELDS <==> KindOf(field) == Number
    ensures field in BOOLEAN_FIELDS <==> KindOf(field) == Flag
    ensures field in STRING_FIELDS <==> KindOf(field) == Words
    ensures field == "path_hashes" <==> KindOf(field) == Hops
    ensures field == "channel_hash" <==> KindOf(field) == Channel
  {
  }

  predicate FitsWidth(items: seq<Json>, width: Option<nat>) {
    && (forall x | x in items :: PathHashOf(x) != Bad)
    && (forall x, y | x in items && y in items :: SameWidth(x, y))
    && (width.Some? ==> forall x | x in items && PathHashOf(x).Width? :: PathHashOf(x).digits == width.value)
  }

  lemma {:induction false} PathHashesFitIff(items: seq<Json>, width: Option<nat>)
    ensures PathHashesFit(items, width) <==> FitsWidth(items, width)
  {
    if items != [] {
      assert items[0] in items && forall x | x in items :: x == items[0] || x in items[1..];
      assert forall x | x in items[1..] :: x in items;
      match PathHashOf(items[0])
      case Bad =>
      case Nothing => PathHashesFitIff(items[1..], width);
      case Width(w) => PathHashesFitIff(items[1..], Some(w));
    }
  }

  /** A hop hash given as a number has the digits of its width in bytes; a larger one is an error. */
  lemma HopWidths(n: nat)
    ensures PathHashOf(Int(n)) ==
      if n < 0x100 then Width(2) else if n < 0x1_0000 then Width(4) else if n < 0x100_0000 then Width(6) else Bad
  {
  }

  /** Given as text it has the digits it is written with, prefixed or not. */
  lemma HopDigits(h: string)
    requires AllHex(h) && h != ""
    ensures PathHashOf(Str(h)) == PathHashOf(Str("0x" + h)) == if |h| in {2, 4, 6} then Width(|h|) else Bad
  {
    HexIsBare(h);
  }

  lemma NumericIff(op: string, v: Json)
    ensures var values := if v.List? then v.items else [v];
      NumericFits(op, values) && (op in {"in", "intersects"} <==> v.List?)
      <==> AppliesTo(op, Number) && (v.List? <==> op in {"in", "intersects"}) && ValueFits(Number, v)
  {
  }

  lemma StringIff(op: string, v: Json)
    ensures var values := if v.List? then v.items else [v];
      StringFits(op, values) && (op in {"in", "intersects"} <==> v.List?)
      <==> AppliesTo(op, Words) && (v.List? <==> op in {"in", "intersects"}) && ValueFits(Words, v)
  {
  }

  lemma ChannelIff(op: string, v: Json)
    ensures var values := if v.List? then v.items else [v];
      ChannelHashFits(op, values) && (op in {"in", "intersects"} <==> v.List?)
      <==> AppliesTo(op, Channel) && (v.List? <==> op in {"in", "intersects"}) && ValueFits(Channel, v)
  {
  }

  lemma HopsIff(op: string, v: Json)
    ensures var values := if v.List? then v.items else [v];
      PathHashFits(op, v, values) && (op in {"in", "intersects"} <==> v.List?)
      <==> AppliesTo(op, Hops) && (v.List? <==> op in {"in", "intersects"}) && ValueFits(Hops, v)
  {
    if v.List? {
      PathHashesFitIff(v.items, None);
    }
  }

  /** The checks of a comparison, field by field, are those tables, operator by operator. */
  lemma SuitsIff(field: string, op: string, v: Json)
    ensures Suits(field, op, v) <==> Typed(field, op, v)
  {
    KindIff(field);
    match KindOf(field)
    case Number => NumericIff(op, v);
    case Flag =>
    case Words => StringIff(op, v);
    case Channel => ChannelIff(op, v);
    case Hops => HopsIff(op, v);
    case Unknown =>
  }

  /** A comparison is accepted exactly if it has just the three known parts, its operator and its reference are
      known, and field, operator and value go together. */
  lemma ComparisonAcceptedIff(c: Object, objects: Object)
    ensures var (field, op, v) := (Get(c, "field"), GetOr(c, "op", Str("equals")), Resolve(objects, Get(c, "value")));
      Comparison(c, objects).Some? <==>
        && c.Keys <= {"field", "op", "value"} && "value" in c && field.Str? && op.Str?
        && Unaliased(op.s) in SUPPORTED_OPS && v.Some? && Typed(field.s, Unaliased(op.s), v.value)
  {
    var (field, op, v) := (Get(c, "field"), GetOr(c, "op", Str("equals")), Resolve(objects, Get(c, "value")));
    if field.Str? && op.Str? && v.Some? {
      SuitsIff(field.s, Unaliased(op.s), v.value);
    }
  }

  // ---------------------------------------------------------------- values

  predicate AtMostDeep(j: Json, levels: nat)
    decreases j
  {
    match j
    case List(items) => forall i | i in items :: levels > 0 && AtMostDeep(i, levels - 1)
    case Obj(m) => forall k | k in m :: levels > 0 && AtMostDeep(m[k], levels - 1)
    case _ => true
  }

  predicate AllFinite(j: Json)
    decreases j
  {
    match j
    case NonFinite => false
    case List(items) => forall i | i in items :: AllFinite(i)
    case Obj(m) => forall k | k in m :: AllFinite(m[k])
    case _ => true
  }

  /** A value is plain exactly if it has at most 16 levels below it and only finite numbers. */
  lemma {:induction false} PlainIff(j: Json, depth: nat)
    requires depth <= 16
    ensures PlainValue(j, depth) <==> AtMostDeep(j, 16 - depth) && AllFinite(j)
    decreases j
  {
    match j {
      case List(items) =>
        if depth < 16 {
          forall i | i in items ensures PlainValue(i, depth + 1) <==> AtMostDeep(i, 15 - depth) && AllFinite(i) {
            PlainIff(i, depth + 1);
          }
        }
      case Obj(m) =>
        if depth < 16 {
          forall k | k in m ensures PlainValue(m[k], depth + 1) <==> AtMostDeep(m[k], 15 - depth) && AllFinite(m[k]) {
            PlainIff(m[k], depth + 1);
          }
        }
      case _ =>
    }
  }

  /** Integers are numbers up to where a double ends, between the 1023rd and the 1024th power of two. */
  lemma IntegersAreFiniteUpTo(n: int)
    ensures -Pow2(1023) <= n <= Pow2(1023) ==> FiniteNumber(Int(n))
    ensures n <= -Pow2(1024) || n >= Pow2(1024) ==> !FiniteNumber(Int(n))
  {
    PowersGrow(970, 1022);
    assert Pow2(1024) == 2 * Pow2(1023) && Pow2(1023) == 2 * Pow2(1022);
  }

  lemma {:induction false} PowersGrow(a: nat, b: nat)
    requires a <= b
    ensures 0 < Pow2(a) <= Pow2(b)
    decreases b
  {
    if a < b {
      PowersGrow(a, b - 1);
    } else if b > 0 {
      PowersGrow(b - 1, b - 1);
    }
  }

  // ---------------------------------------------------------------- the depth of conditions

  lemma OneField(o: Object, k: string)
    requires k in o && |o| == 1
    ensures o == map[k := o[k]]
  {
    var rest := o.Keys - {k};
    assert o.Keys == {k} + rest;
    assert |o.Keys| == 1 + |rest|;
    assert rest == {};
    assert forall x | x in o :: x == k;
  }

  /** How many all and any stand above the deepest comparison. */
  function Nesting(j: Json): nat
    decreases j
  {
    if !j.Obj? then 0
    else if "all" in j.fields && j.fields["all"].List? then 1 + Deepest(j.fields["all"].items)
    else if "any" in j.fields && j.fields["any"].List? then 1 + Deepest(j.fields["any"].items)
    else 0
  }

  function Deepest(items: seq<Json>): nat
    decreases items
  {
    if items == [] then 0
    else
      var (one, rest) := (Nesting(items[0]), Deepest(items[1..]));
      if one >= rest then one else rest
  }

  /** A condition that is accepted at some depth is accepted at another exactly if no comparison is then more than 16
      deep, and means the same. */
  lemma {:induction false} DepthIff(j: Json, objects: Object, depth: nat, other: nat)
    requires Condition(j, objects, depth).Some? && other <= 16
    ensures Condition(j, objects, other).Some? <==> other + Nesting(j) <= 16
    ensures Condition(j, objects, other).Some? ==> Condition(j, objects, other) == Condition(j, objects, depth)
    decreases 17 - depth, 0
  {
    if "all" in j.fields || "any" in j.fields {
      var branch, items := BranchForm(j, objects, depth);
      DepthsIff(items, objects, depth + 1, other + 1);
      BranchDepthIff(branch, items, objects, depth, other);
    }
  }

  lemma BranchForm(j: Json, objects: Object, depth: nat) returns (branch: string, items: seq<Json>)
    requires Condition(j, objects, depth).Some? && ("all" in j.fields || "any" in j.fields)
    ensures (branch == "all" || branch == "any") && items != [] && j == Obj(map[branch := List(items)])
    ensures depth <= 16 && Conditions(items, objects, depth + 1).Some?
  {
    branch := if "all" in j.fields then "all" else "any";
    items := j.fields[branch].items;
    OneField(j.fields, branch);
  }

  lemma BranchDepthIff(branch: string, items: seq<Json>, objects: Object, depth: nat, other: nat)
    requires (branch == "all" || branch == "any") && items != [] && depth <= 16 && other <= 16
    requires Conditions(items, objects, depth + 1).Some?
    requires Conditions(items, objects, other + 1).Some? <==> other + 1 + Deepest(items) <= 16
    requires Conditions(items, objects, other + 1).Some? ==>
      Conditions(items, objects, other + 1) == Conditions(items, objects, depth + 1)
    ensures var j := Obj(map[branch := List(items)]);
      && (Condition(j, objects, other).Some? <==> other + Nesting(j) <= 16)
      && (Condition(j, objects, other).Some? ==> Condition(j, objects, other) == Condition(j, objects, depth))
  {
    BranchAccepted(branch, items, objects, depth);
    BranchAccepted(branch, items, objects, other);
  }

  lemma BranchAccepted(branch: string, items: seq<Json>, objects: Object, depth: nat)
    requires (branch == "all" || branch == "any") && items != [] && depth <= 16
    ensures var j := Obj(map[branch := List(items)]);
      && Nesting(j) == 1 + Deepest(items)
      && var items' := Conditions(items, objects, depth + 1);
         Condition(j, objects, depth)
         == if items'.None? then None else Some(Obj(map[branch := List(items'.value)]))
  {
    var o: Object := map[branch := List(items)];
    assert o.Keys == {branch} && |o| == 1;
    assert branch == "any" ==> "all" !in o;
  }

  lemma {:induction false} DepthsIff(items: seq<Json>, objects: Object, depth: nat, other: nat)
    requires depth <= MAX_DEPTH + 1 && Conditions(items, objects, depth).Some? && other <= 17
    ensures items != [] ==> (Conditions(items, objects, other).Some? <==> other + Deepest(items) <= 16)
    ensures Conditions(items, objects, other).Some? ==>
      Conditions(items, objects, other) == Conditions(items, objects, depth)
    decreases 17 - depth, |items|
  {
    if items != [] {
      if other <= 16 {
        DepthIff(items[0], objects, depth, other);
      }
      DepthsIff(items[1..], objects, depth, other);
    }
  }

  // ---------------------------------------------------------------- rules and documents

  /** What a rule is asked for besides its place in the list. */
  predicate SoundRule(j: Json, objects: Object) {
    j.Obj? && j.fields.Keys <= {"id", "name", "enabled", "if", "then", "action"}
    && var r := j.fields;
       && ("id" in r ==> r["id"].Int? || (r["id"].Str? && r["id"].s != ""))
       && ("enabled" in r ==> r["enabled"].Bool?)
       && ("name" in r ==> r["name"].Null? || r["name"].Str?)
       && ActionNamed(r).Some?
       && "if" in r && Condition(r["if"], objects, 0).Some?
  }

  /** The action in the `then` block or text, or else beside it, or else "allow"; two that differ are an error. */
  function ActionNamed(r: Object): Option<string> {
    var action := if "then" !in r then GetOr(r, "action", Str("allow")) else r["then"];
    var named := if action.Obj? && action.fields.Keys == {"action"} then action.fields["action"] else action;
    if named.Str? && named.s in {"allow", "drop", "log_only"} && ("action" in r ==> r["action"] == named)
    then Some(named.s) else None
  }

  lemma ActionNamedIff(r: Object)
    ensures NamedAction(r) == ActionNamed(r)
  {
    var block := GetOr(r, "then", GetOr(r, "action", Str("allow")));
    if block.Obj? {
      assert block.fields.Keys <= {"action"} && "action" in block.fields ==> block.fields.Keys == {"action"};
    }
  }

  /** A rule is accepted exactly if it is sound and its id, or else its number in the list from 1, is new. */
  lemma RuleAcceptedIff(j: Json, objects: Object, index: nat, seen: set<Json>)
    ensures Rule(j, objects, index, seen).Some? <==>
      SoundRule(j, objects) && (if "id" in j.fields then j.fields["id"] else Int(index + 1)) !in seen
  {
    if j.Obj? {
      ActionNamedIff(j.fields);
      assert Condition(Null, objects, 0).None?;
    }
  }

  /** A document is accepted exactly if its parts are known and well typed, its groups are accepted, and its rules are
      with the objects it ends up with. */
  lemma DocumentAcceptedIff(j: Json, existing: Option<Json>, project: bool)
    ensures Normalize(j, existing, project).Some? <==>
      && j.Obj? && SoundForm(j.fields)
      && SoundConfig(GivenConfig(j.fields))
      && var groups := Groups(GetOr(j.fields, "groups", if existing.Some? then existing.value else Obj(map[])));
         groups.Some?
         && var c := GivenConfig(j.fields);
            var objects := if "objects" in c then c["objects"].fields else map[];
            var rules := if "rules" in c then c["rules"].items else [];
            var projects := project && ("groups" in j.fields || existing.Some?);
            Rules(rules, Objects(objects, groups.value, projects), 0, {}).Some?
  {
    if j.Obj? {
      ConfigIff(j.fields);
    }
  }

  /** Either the engine under its own name, beside the groups at most, or its parts at the top. */
  predicate SoundForm(o: Object) {
    "policy_engine" in o ==> o.Keys <= {"policy_engine", "groups"} && o["policy_engine"].Obj?
  }

  function GivenConfig(o: Object): Object
    requires SoundForm(o)
  {
    if "policy_engine" in o then o["policy_engine"].fields else o - {"groups"}
  }

  predicate SoundConfig(c: Object) {
    && c.Keys <= {"enabled", "default_action", "rules", "objects"}
    && ("enabled" in c ==> c["enabled"].Bool?)
    && ("default_action" in c ==> c["default_action"].Str? && c["default_action"].s in {"allow", "drop", "log_only"})
    && ("rules" in c ==> c["rules"].List?)
    && ("objects" in c ==> c["objects"].Obj? && AtMostDeep(c["objects"], 16) && AllFinite(c["objects"]))
  }

  lemma ConfigIff(o: Object)
    ensures EngineConfig(o).Some? <==> SoundForm(o)
    ensures EngineConfig(o).Some? ==>
      var c := GivenConfig(o);
      && EngineConfig(o) == Some(c)
      && (c.Keys <= DEFAULTS.Keys && GoodConfig(DEFAULTS + c) <==> SoundConfig(c))
  {
    if SoundForm(o) {
      MergedConfig(GivenConfig(o));
    }
  }

  lemma MergedConfig(c: Object)
    ensures c.Keys <= DEFAULTS.Keys && GoodConfig(DEFAULTS + c) <==> SoundConfig(c)
  {
    if "objects" in c {
      PlainIff(c["objects"], 0);
    } else {
      PlainIff(Obj(map[]), 0);
    }
    if c.Keys <= DEFAULTS.Keys {
      var cfg := DEFAULTS + c;
      assert cfg["enabled"] == GetOr(c, "enabled", Bool(false));
      assert cfg["default_action"] == GetOr(c, "default_action", Str("allow"));
      assert cfg["rules"] == GetOr(c, "rules", List([])) && cfg["objects"] == GetOr(c, "objects", Obj(map[]));
    }
  }
}
