/**
 The packet-policy evaluator (policy_engine.py) on JSON documents.

 What a condition finds in a packet, and how it compares, is left to a probe: it is given the engine's objects
 and inline channel secrets, the field, the operator and the resolved value. Everything else is the evaluator.
 */
module PolicyEngine {
  import opened Wrappers
  import opened PolicyText

  datatype Json =
    | Null
    | Bool(flag: bool)
    | Int(n: int)
    | Float(x: real)
    | NonFinite
    | Str(s: string)
    | List(items: seq<Json>)
    | Obj(fields: map<string, Json>)

  type Object = map<string, Json>

  const ACTIONS: set<string> := {"allow", "drop", "log_only"}

  /** dict.get */
  function Get(o: Object, k: string): Json {
    GetOr(o, k, Null)
  }

  function GetOr(o: Object, k: string, default: Json): Json {
    if k in o then o[k] else default
  }

  predicate Truthy(j: Json) {
    match j
    case Null => false
    case Bool(b) => b
    case Int(n) => n != 0
    case Float(x) => x != 0.0
    case NonFinite => true
    case Str(s) => s != ""
    case List(items) => items != []
    case Obj(m) => m != map[]
  }

  type Probe = (Object, seq<string>, Json, string, Json) -> bool

  /** What conditions may refer to. */
  datatype Known = Known(objects: Object, secrets: seq<string>)

  datatype Engine = Engine(enabled: bool, defaultAction: string, rules: seq<Json>, known: Known)

  datatype Decision = Decision(action: string, matched: bool)

  function ActionOf(j: Json): string {
    if j.Str? && j.s in ACTIONS then j.s else "allow"
  }

  /** The engine that `__init__` builds from a configuration object. */
  function FromConfig(cfg: Object): Engine {
    var rules := Get(cfg, "rules");
    var objects := Get(cfg, "objects");
    var list := if rules.List? then rules.items else [];
    Engine(Truthy(GetOr(cfg, "enabled", Bool(false))), ActionOf(GetOr(cfg, "default_action", Str("allow"))),
           list, Known(if objects.Obj? then objects.fields else map[], Distinct(RuleSecrets(list))))
  }

  // ---------------------------------------------------------------- channel secrets written into rules

  function ValueSecrets(items: seq<Json>): seq<string> {
    if items == [] then []
    else
      var rest := ValueSecrets(items[1..]);
      if items[0].Str? && Secret(items[0].s).Some? then [Secret(items[0].s).value] + rest else rest
  }

  function ConditionSecrets(c: Json): seq<string>
    decreases c
  {
    if !c.Obj? then []
    else
      (if "all" in c.fields && c.fields["all"].List? then AllSecrets(c.fields["all"].items) else [])
      + (if "any" in c.fields && c.fields["any"].List? then AllSecrets(c.fields["any"].items) else [])
      + OwnSecrets(c.fields)
  }

  function OwnSecrets(c: Object): seq<string> {
    if Get(c, "field") != Str("channel_hash") then []
    else
      var v := Get(c, "value");
      ValueSecrets(if v.List? then v.items else [v])
  }

  function AllSecrets(items: seq<Json>): seq<string>
    decreases items
  {
    if items == [] then [] else ConditionSecrets(items[0]) + AllSecrets(items[1..])
  }

  function RuleSecrets(rules: seq<Json>): seq<string> {
    if rules == [] then []
    else
      (if rules[0].Obj? then ConditionSecrets(GetOr(rules[0].fields, "if", Obj(map[]))) else [])
        + RuleSecrets(rules[1..])
  }

  /** dict.fromkeys: the first occurrence of each. */
  function Distinct(xs: seq<string>): seq<string> {
    if xs == [] then []
    else
      var rest := Distinct(xs[..|xs| - 1]);
      if xs[|xs| - 1] in rest then rest else rest + [xs[|xs| - 1]]
  }

  predicate NoRepeats(xs: seq<string>) {
    xs == [] || (xs[|xs| - 1] !in xs[..|xs| - 1] && NoRepeats(xs[..|xs| - 1]))
  }

  /** It has every element once. */
  lemma {:induction false} DistinctHasEachOnce(xs: seq<string>)
    ensures NoRepeats(Distinct(xs)) && forall x :: x in Distinct(xs) <==> x in xs
    decreases |xs|
  {
    if xs != [] {
      var (front, x) := (xs[..|xs| - 1], xs[|xs| - 1]);
      DistinctHasEachOnce(front);
      assert xs == front + [x];
      assert (Distinct(front) + [x])[..|Distinct(front)|] == Distinct(front);
    }
  }

  // ---------------------------------------------------------------- conditions

  /** `_resolve_value`: None stands for an unknown reference. */
  function Resolve(objects: Object, v: Json): Option<Json> {
    if !(v.Str? && v.s != "" && v.s[0] == '@') then Some(v)
    else
      var parts := SplitDot(v.s[1..]);
      if parts.None? then None
      else
        var (group, key) := parts.value;
        var g := Get(objects, group);
        if g.Obj? && key in g.fields then Some(g.fields[key]) else None
  }

  /** s.split(".", 1) if it gives two parts. */
  function SplitDot(s: string): Option<(string, string)> {
    if s == "" then None
    else if s[0] == '.' then Some(("", s[1..]))
    else
      var rest := SplitDot(s[1..]);
      if rest.None? then None else Some(([s[0]] + rest.value.0, rest.value.1))
  }

  /** The operator a comparison carries out; None for names it does not know. */
  function Canonical(name: string): Option<string> {
    if name in {"equals", "eq", "=="} then Some("equals")
    else if name in {"not_equals", "ne", "!="} then Some("not_equals")
    else if name in {"greater_than", "gt", ">"} then Some("greater_than")
    else if name in {"greater_or_equal", "gte", ">="} then Some("greater_or_equal")
    else if name in {"less_than", "lt", "<"} then Some("less_than")
    else if name in {"less_or_equal", "lte", "<="} then Some("less_or_equal")
    else if name == "contains" then Some("contains")
    else if name in {"in", "is_in"} then Some("in")
    else if name in {"intersects", "overlaps"} then Some("intersects")
    else if name in {"starts_with", "ends_with"} then Some(name)
    else None
  }

  /** str(op or "equals").lower(); no operator is spelled like another kind of JSON value. */
  function OpName(op: Json): string {
    if !Truthy(op) then "equals" else if op.Str? then Lower(op.s) else ""
  }

  predicate ConditionMatches(known: Known, c: Object, probe: Probe) {
    var op := Canonical(OpName(GetOr(c, "op", Str("equals"))));
    var expected := Resolve(known.objects, Get(c, "value"));
    op.Some? && expected.Some? && probe(known.objects, known.secrets, Get(c, "field"), op.value, expected.value)
  }

  predicate Matches(known: Known, c: Json, probe: Probe)
    decreases c
  {
    if !c.Obj? then false
    else if "field" in c.fields then ConditionMatches(known, c.fields, probe)
    else if "all" in c.fields && c.fields["all"].List? then AllMatch(known, c.fields["all"].items, probe)
    else if "any" in c.fields && c.fields["any"].List? then AnyMatches(known, c.fields["any"].items, probe)
    else false
  }

  predicate AllMatch(known: Known, items: seq<Json>, probe: Probe)
    decreases items
  {
    items == [] || (Matches(known, items[0], probe) && AllMatch(known, items[1..], probe))
  }

  predicate AnyMatches(known: Known, items: seq<Json>, probe: Probe)
    decreases items
  {
    items != [] && (Matches(known, items[0], probe) || AnyMatches(known, items[1..], probe))
  }

  /** `_resolve_action` */
  function RuleAction(rule: Object): string {
    var block := GetOr(rule, "then", Obj(map[]));
    var named := if block.Obj? then Get(block.fields, "action") else if block.Str? then block else Null;
    var action := if Truthy(named) then named else Get(rule, "action");
    if Truthy(action) then ActionOf(action) else "allow"
  }

  predicate Applies(known: Known, rule: Json, probe: Probe) {
    rule.Obj? && Truthy(GetOr(rule.fields, "enabled", Bool(true)))
    && Matches(known, GetOr(rule.fields, "if", Obj(map[])), probe)
  }

  /** `evaluate`: the first rule that applies decides. */
  function Evaluate(e: Engine, probe: Probe): Decision {
    if !e.enabled then Decision("allow", false) else FirstRule(e.known, e.defaultAction, e.rules, probe)
  }

  function FirstRule(known: Known, default: string, rules: seq<Json>, probe: Probe): Decision {
    if rules == [] then Decision(default, false)
    else if Applies(known, rules[0], probe) then Decision(RuleAction(rules[0].fields), true)
    else FirstRule(known, default, rules[1..], probe)
  }

  /** The first rule that applies decides, whatever follows it; without one the default does. */
  lemma {:induction false} FirstMatchDecides(known: Known, default: string, rules: seq<Json>, i: nat, probe: Probe)
    requires i <= |rules| && forall j | 0 <= j < i :: !Applies(known, rules[j], probe)
    requires i < |rules| ==> Applies(known, rules[i], probe)
    ensures FirstRule(known, default, rules, probe)
         == if i < |rules| then Decision(RuleAction(rules[i].fields), true) else Decision(default, false)
    decreases i
  {
    if i > 0 {
      assert !Applies(known, rules[0], probe);
      assert forall j | 0 <= j < i - 1 :: rules[1..][j] == rules[j + 1];
      FirstMatchDecides(known, default, rules[1..], i - 1, probe);
    }
  }

  predicate SaysDrop(rule: Object) {
    var block := GetOr(rule, "then", Obj(map[]));
    block == Str("drop") || (block.Obj? && Get(block.fields, "action") == Str("drop"))
    || Get(rule, "action") == Str("drop")
  }

  /** The evaluator drops a packet only if a rule or the default says so; anything it does not know allows. */
  lemma {:induction false} OnlyNamedDrops(known: Known, default: string, rules: seq<Json>, probe: Probe)
    requires FirstRule(known, default, rules, probe).action == "drop"
    ensures default == "drop" || exists r | r in rules :: r.Obj? && SaysDrop(r.fields)
  {
    if rules != [] {
      if Applies(known, rules[0], probe) {
        assert SaysDrop(rules[0].fields);
        assert rules[0] in rules;
      } else {
        OnlyNamedDrops(known, default, rules[1..], probe);
        assert forall r | r in rules[1..] :: r in rules;
      }
    }
  }

  lemma DefaultDropsIfNamed(cfg: Object)
    ensures FromConfig(cfg).defaultAction == "drop" ==> Get(cfg, "default_action") == Str("drop")
  {
  }

  /** A rule that is switched off is as good as not there. */
  lemma {:induction false} DisabledRuleIsSkipped(known: Known, default: string, rules: seq<Json>, i: nat, probe: Probe)
    requires i < |rules| && rules[i].Obj? && Get(rules[i].fields, "enabled") == Bool(false)
    ensures FirstRule(known, default, rules, probe) == FirstRule(known, default, rules[..i] + rules[i + 1..], probe)
    decreases i
  {
    if i == 0 {
      assert !Applies(known, rules[0], probe);
      assert rules[..0] + rules[1..] == rules[1..];
    } else {
      DisabledRuleIsSkipped(known, default, rules[1..], i - 1, probe);
      assert (rules[..i] + rules[i + 1..])[1..] == rules[1..][..i - 1] + rules[1..][i..];
    }
  }

  lemma {:induction false} AllMatchIff(known: Known, items: seq<Json>, probe: Probe)
    ensures AllMatch(known, items, probe) <==> forall c | c in items :: Matches(known, c, probe)
    ensures AnyMatches(known, items, probe) <==> exists c :: c in items && Matches(known, c, probe)
  {
    if items != [] {
      AllMatchIff(known, items[1..], probe);
      assert items[0] in items;
      assert forall c | c in items :: c == items[0] || c in items[1..];
      assert forall c | c in items[1..] :: c in items;
    }
  }

  /** A conjunction needs all of its conditions, a disjunction one. */
  lemma BranchMeaning(known: Known, items: seq<Json>, probe: Probe)
    ensures Matches(known, Obj(map["all" := List(items)]), probe) <==> forall c | c in items :: Matches(known, c, probe)
    ensures Matches(known, Obj(map["any" := List(items)]), probe)
      <==> exists c :: c in items && Matches(known, c, probe)
  {
    AllMatchIff(known, items, probe);
    var all: Object := map["all" := List(items)];
    var any: Object := map["any" := List(items)];
    assert "field" !in all && all["all"] == List(items);
    assert "field" !in any && "all" !in any && any["any"] == List(items);
  }

  /** The loop of `evaluate`. */
  method EvaluateRules(e: Engine, probe: Probe) returns (d: Decision)
    ensures d == Evaluate(e, probe)
  {
    if !e.enabled {
      return Decision("allow", false);
    }
    var i := 0;
    while i < |e.rules|
      invariant 0 <= i <= |e.rules|
      invariant FirstRule(e.known, e.defaultAction, e.rules[i..], probe) == Evaluate(e, probe)
    {
      if Applies(e.known, e.rules[i], probe) {
        return Decision(RuleAction(e.rules[i].fields), true);
      }
      assert e.rules[i..][1..] == e.rules[i + 1..];
      i := i + 1;
    }
    d := Decision(e.defaultAction, false);
  }
}
